# ahrefs-cli core, modelled in Dafny

This project models three core pieces of `ahrefs-cli`, a command-line client for the Ahrefs API v3:

- the API request executor: client construction, the single HTTP exchange, error classification and the retry loop;
- the output writer: JSON, YAML, CSV and table rendering, plus error envelopes;
- the masking of a stored API key by `ahrefs config show`.

Modules:

- `Wrappers` holds `Option`.
- `Decimal` models integer text as Go's `fmt` writes it with `%d` and reads it back with `Sscanf("%d")` into a 64-bit `int`.
- `Client` models `pkg/client/client.go`.
  - A `Client` is an immutable value.
  - One exchange (`doRequest`) is the function `DoRequest` over what the wire delivered (`Attempt`).
  - The retry loop `Do` is a `method` with a `while` loop. It is proved equal to the recursive specification `DoSpec`/`Retry`.
  - The network is a parameter: attempt `k` receives `net.reply(k)`, and `net.cancelled(k)` says whether the context is cancelled during the wait before attempt `k`.
  - Library code the executor calls is a parameter of type `Library`: `json.Unmarshal` of an error body, `http.StatusText` and `url.Parse`.
- `Payload` is a closed datatype that stands in for the values the writer inspects by reflection: nil, scalar, map, slice and struct. Struct fields carry name, exportedness and JSON tag. The module also holds:
  - `fmt`'s `%v` rendering (`Show`);
  - the choice of the row set (`RowSet`);
  - `extractHeaders` and `extractRow`, as methods proved against `Headers` and `Row`.
- `Output` models `pkg/output/output.go`.
  - `Writer` is a class. Its `out` field is the sequence of chunks handed to its sink: a line, a tab-separated table row, a CSV record, or a JSON document given as an ordered member list.
  - Each write method is proved to append exactly what a rendering function (`SuccessOutput`, `CsvOutput`, `TableOutput`, `YamlOutput`, ...) prescribes. Each method also returns how rendering ended: `Done`, `Failed(message)` or `Panicked`.
  - The properties are lemmas about those functions.
- `ConfigCmd` models `maskAPIKey` of `cmd/config/config.go` on bytes, because Go measures and slices strings by byte.

Behaviour the model makes explicit:

- `Do` returns no response when it fails, even when the last attempt was answered. No error from `Do` is a bare `*APIError`: an API error reaches the caller only wrapped in the exhausted-retries error, and the key check and a cancelled context return plain errors. So `formatError`, which does not unwrap, never shows a code, suggestion or documentation link for an error from `Do` (`DoFailureFormatsWithoutCode`).
- A 4xx answer other than 429 stops the loop after the attempt that received it. The message still says "request failed after 3 retries" (`FirstAttemptBadRequest`).
- Transport failures, unreadable bodies, 429 and 5xx answers are retried; any other 4xx is not (`RetriedFailures`).
- A units header whose number is outside the 64-bit range fails to scan and leaves the count at 0 (`UnitsOutOfRange`).
- The backoff is linear: the waits are 1 s, 2 s, 3 s, ... (`WaitsFrom`, `Schedule`).
- `doRequest` never sets `RateLimitRemaining`, so the JSON meta object never carries `rate_limit_remaining` (`DoMetaOmitsRateLimit`).
- A negative `MaxRetries` survives `NewClient` and makes `Do` fail without any attempt.
- YAML output writes struct fields under their Go names, not their JSON tags. It does not write the response meta.
- `WriteError` always writes JSON, whatever the writer's format.
- CSV and table output take the first slice-valued entry of a map as the rows. A struct is never searched for rows, so a struct is a CSV error and a single-object table.
- `extractRow` on a struct also matches unexported fields. Go's reflection panics when it reads one; the model records that as the `Panicked` status after the rows written so far.

## Model

| member | source | states |
|---|---|---|
| Client.NewClient | pkg/client/client.go:41-60 | The API key is copied. An empty base URL, a zero timeout and a zero retry count are replaced by `https://api.ahrefs.com/v3`, 60 s and 3. Any other setting is kept. The result never has an empty URL or a zero timeout or retry count. |
| Client.NewClientIdempotent | pkg/client/client.go:41-60 | Applying the defaults to an already built client changes nothing. |
| Client.APIErrorText | pkg/client/client.go:187-189 | The text of an API error starts with "API error (" and ends with the error's message. |
| Client.StatusFromAPIErrorText | pkg/client/client.go:187-189 | The status code can be read back, as a 64-bit integer, from the text that follows "API error (". |
| Client.ParseError | pkg/client/client.go:192-235 | The status is kept. The message comes from the decoded body when that has a non-empty message; otherwise it is the raw body, or the status text when the body is empty. 401/403, 429, 400 and 404 get their fixed code, suggestion and docs URL. Exactly those statuses get a suggestion. Any other status keeps the decoded code and has no suggestion or docs URL. |
| Client.ClassifiedCodeIgnoresBody | pkg/client/client.go:216-232 | For the classified statuses, the code and the suggestion do not depend on the body. |
| Client.HeaderGet | pkg/client/client.go:164 | A lookup gives the first value stored under the key when the key has values, and "" when it has none. |
| Client.RequestHeaders | pkg/client/client.go:136-139 | A request carries `Authorization: Bearer <key>`, `Accept: application/json` and `User-Agent: ahrefs-cli/0.1.0`. |
| Client.UnitsConsumed | pkg/client/client.go:163-169 | Units consumed is the integer scanned from `X-Api-Units-Consumed`. It is 0 when the header is absent or does not scan. |
| Client.UnitsHeaderRoundTrip | pkg/client/client.go:163-169 | A header holding the decimal text of a 64-bit integer yields that integer. |
| Client.UnitsOutOfRange | pkg/client/client.go:164-168 | A header holding a number above or below the 64-bit range fails the scan, and the count stays 0. |
| Client.DoRequest | pkg/client/client.go:128-176 | There is a response exactly when the server answered; otherwise there is a wrapped error. The response carries the status, body, headers, elapsed time and parsed units, and a zero rate limit. An answer is an error exactly when its status is at least 400, and then the error is `ParseError`'s. |
| Client.RetriedFailures | pkg/client/client.go:118-121 | No answer, an unreadable body, a 429 and any 5xx fail without being permanent, so the loop retries them. Any other 4xx fails permanently. A status below 400 succeeds. |
| Client.Exhausted | pkg/client/client.go:124 | The final error wraps the last attempt's error, with the text "request failed after N retries: " followed by that error's text. |
| Client.Do | pkg/client/client.go:85-125 | An empty key fails with "API key is required" before any attempt. Every outcome, attempt count and wait list equals the retry specification `DoSpec`. |
| Client.WaitsFrom | pkg/client/client.go:101-109 | The waits before attempts k..n-1 are k, k+1, ... seconds: attempt i waits i seconds. |
| Client.WaitsAreSchedule | pkg/client/client.go:100-109 | The waits before attempts 0..n are exactly the schedule 1 s, ..., n s. |
| Client.RetryUnrolls | pkg/client/client.go:99-122 | While every attempt fails retryably and no wait is cancelled, the loop's trace is those attempts and their waits followed by the rest of the loop. |
| Client.ReachesAttempt | pkg/client/client.go:99-122 | If attempts 0..n-1 all fail retryably, `Do` reaches attempt n after waiting 1 s, ..., (n-1) s. |
| Client.StopsAtFirstSuccess | pkg/client/client.go:111-114 | The first successful attempt's response is returned after n+1 attempts and n waits. |
| Client.StopsOnClientError | pkg/client/client.go:116-124 | A 4xx answer other than 429 ends the loop at once with the exhausted-retries error wrapping that API error. |
| Client.CancelledDuringBackoff | pkg/client/client.go:101-108 | A context cancelled during the wait before attempt n ends `Do` with the context's error after n attempts. |
| Client.ExhaustsRetries | pkg/client/client.go:100-124 | When every attempt fails retryably, `Do` makes maxRetries+1 attempts and fails with the last attempt's error wrapped. |
| Client.RetryAttemptsBound | pkg/client/client.go:100 | From attempt k, the loop makes at most maxRetries+1-k attempts. |
| Client.AttemptsBounded | pkg/client/client.go:100 | `Do` makes at most maxRetries+1 attempts, and none when maxRetries is negative. |
| Client.RetryErrorIsWrapped | pkg/client/client.go:99-124 | The retry loop never fails with a bare API error. |
| Client.DoErrorIsNeverBareAPIError | pkg/client/client.go:85-125 | No failure of `Do` is a bare `*APIError`. |
| Client.RetrySuccessIsAnExchange | pkg/client/client.go:111-114 | A successful outcome is the response of some attempt that returned no error. |
| Client.DoSuccessIsAnswered | pkg/client/client.go:154-175 | A response returned by `Do` has a status below 400 and a zero rate limit. |
| Client.TwoServerErrorsThenSuccess | pkg/client/client.go:100-122 | With 3 retries, two 500 answers followed by a 200 give that 200 on the third attempt. |
| Client.ThreeRetriesText | pkg/client/client.go:124 | The final error text with 3 retries starts "request failed after 3 retries: ". |
| Client.FirstAttemptBadRequest | pkg/client/client.go:116-124 | A 400 on the first attempt gives one attempt and no wait. The error text still says "request failed after 3 retries". |
| Client.NegativeMaxRetriesMakesNoAttempt | pkg/client/client.go:100-124 | A negative retry count makes no attempt and fails with a wrapped nil error. |
| Decimal.FormatInt | pkg/client/client.go:188 | `%d` text is non-empty and starts with a digit, or with '-' for a negative number. |
| Decimal.ScanInt | pkg/client/client.go:166 | A successful `%d` scan fits in 64 bits and the text starts with a digit or a sign followed by a digit. |
| Decimal.ScanFormatInt | pkg/client/client.go:166 | Scanning the `%d` text of a 64-bit integer, followed by anything but a digit, gives the integer back. |
| Decimal.ScanNonNegative | pkg/client/client.go:166 | An unsigned digit run in range scans to its value; whatever follows it is ignored. |
| Decimal.ScanOutOfRange | pkg/client/client.go:166 | A digit run above the 64-bit maximum does not scan (Sscanf's overflow error), whatever non-digit text follows. |
| Decimal.ScanNegativeOutOfRange | pkg/client/client.go:166 | '-' and a digit run below the 64-bit minimum do not scan. |
| Decimal.ScanNegative | pkg/client/client.go:166 | '-' and a digit run in range scan to the negated value; whatever follows it is ignored. |
| Decimal.ScanPlus | pkg/client/client.go:166 | '+' and a digit run in range scan to the unchanged value; whatever follows it is ignored. |
| Decimal.ScanSigned | pkg/client/client.go:166 | Text starting with '-' scans to minus the value of the digits after it. |
| Decimal.ScanUnsigned | pkg/client/client.go:166 | Text starting with a digit scans to the value of its leading digits. |
| Decimal.LeadingDigits | pkg/client/client.go:166 | The scanned digits are the longest digit prefix of the text. |
| Payload.FirstSequence | pkg/output/output.go:158-167 | Finds the first map entry whose value is a slice, or reports that there is none. |
| Payload.RowSetShapes | pkg/output/output.go:157-171 | A slice is its own row set. A map yields the first slice-valued entry, and has a row set exactly when some entry is a slice. Nothing else has a row set. |
| Payload.SelectRows | pkg/output/output.go:157-171 | The loop over the map's entries selects exactly `RowSet(data)`. |
| Payload.BeforeCommaIsLongestPrefix | pkg/output/output.go:281 | The tag name is the longest comma-free prefix of the tag, stopping at a comma. |
| Payload.OptionsTagLabel | pkg/output/output.go:279-282 | A tag `backlinks,omitempty` gives the column `backlinks`. |
| Payload.PlainTagLabel | pkg/output/output.go:279-282 | A tag `url_from` gives the column `url_from`. |
| Payload.UntaggedLabels | pkg/output/output.go:279-285 | A tag `,omitempty` gives an empty column name. A tag `-` or no tag gives the Go field name. |
| Payload.ExportedMembers | pkg/output/output.go:276-277 | A field is selected exactly when it is an exported field of the struct. |
| Payload.ExportedAppend | pkg/output/output.go:275-277 | Selection distributes over concatenation, so it keeps declaration order. |
| Payload.Keys | pkg/output/output.go:266-270 | A map's headers are its keys in order. |
| Payload.Labels | pkg/output/output.go:277-286 | A struct's headers are its fields' labels in order. |
| Payload.HeadersNaming | pkg/output/output.go:263-291 | Map headers are the keys; struct headers are the labels of the exported fields; any other value has no headers. |
| Payload.ExtractHeaders | pkg/output/output.go:263-291 | `extractHeaders` returns exactly `Headers(v)`. |
| Payload.MapHeaders | pkg/output/output.go:266-270 | The loop over map keys returns the key list. |
| Payload.StructHeaders | pkg/output/output.go:273-288 | The loop over struct fields returns the labels of the exported fields. |
| Payload.FieldMatch | pkg/output/output.go:311-322 | Finds the first field whose label equals the header, or reports that there is none. |
| Payload.KeyMatch | pkg/output/output.go:298-304 | Finds the first key equal to the header, or reports that there is none. |
| Payload.Row | pkg/output/output.go:294-295 | A row has one cell per header. |
| Payload.FindKeyCell | pkg/output/output.go:299-304 | The inner key loop yields the `%v` text of the matched value, or "". |
| Payload.FindFieldCell | pkg/output/output.go:312-322 | The inner field loop succeeds exactly when it does not land on an unexported field, and then yields the cell. |
| Payload.ExtractRow | pkg/output/output.go:294-328 | `extractRow` completes exactly when the value does not panic, and then returns `Row(v, headers)`. |
| Payload.MapRow | pkg/output/output.go:297-307 | A map row is `Row(Map(es), headers)`. |
| Payload.StructRow | pkg/output/output.go:309-325 | A struct row completes exactly when no header reaches an unexported field, and then equals `Row`. |
| Payload.PanicHeaderFinds | pkg/output/output.go:310-322 | The header loop panics at the first header whose matching field is unexported. When it does not panic, no header reaches an unexported field. |
| Payload.FirstLabelMatch | pkg/output/output.go:311-322 | When the field loop stops at the first field labelled h, that field is the match: the cell is its `%v` text, and it panics exactly when the field is unexported. When the loop runs to the end, the cell is "" and nothing panics. |
| Payload.MissingHeaderGivesEmptyCell | pkg/output/output.go:295-328 | A header that no key or label matches gives an empty cell and no panic. |
| Payload.FieldMatchInsert | pkg/output/output.go:311-322 | Inserting a field whose label is not the header leaves the match on the same field: an index at or after the insertion point moves up by one. |
| Payload.CellInsert | pkg/output/output.go:311-322 | Inserting a field whose label is not the header, at any position, changes neither the cell nor whether the header reaches an unexported field. |
| Payload.ExtraFieldDropped | pkg/output/output.go:309-325 | A field whose label is not a header, wherever it sits among the fields, changes neither the row nor whether it panics. |
| Payload.FieldTexts | pkg/output/output.go:320 | There is one `%v` text per field. |
| Payload.MatchesOwnColumn | pkg/output/output.go:311-322 | In rows of the first row's struct type with distinct labels, column i matches field i. |
| Payload.UniformCells | pkg/output/output.go:311-322 | For such rows, each cell is the `%v` text of the field at the same position, and no header reaches an unexported field. |
| Payload.UniformHeaders | pkg/output/output.go:273-288 | All-exported fields give their labels as headers. |
| Payload.UniformRowsNeverPanic | pkg/output/output.go:309-325 | Rows of the header row's all-exported type never panic. |
| Payload.UniformRowsMatch | pkg/output/output.go:294-328 | Such a row is exactly its fields' `%v` texts, in order. |
| Output.GetFinds | pkg/output/output.go:68-95 | A lookup in a JSON object finds nothing exactly when no member has the key; otherwise it finds a member with that key. |
| Output.MetaObject | pkg/output/output.go:85-95 | The meta object always has `response_time_ms`. It has `units_consumed` and `rate_limit_remaining` only when they are positive. Its keys are distinct. |
| Output.SuccessEnvelope | pkg/output/output.go:80-95 | The envelope has `status: success` and the data. It has `meta` exactly when meta is given. Its keys are distinct. |
| Output.APIErrorObject | pkg/output/output.go:337-345 | An API error gives its message and code, and its suggestion and docs URL only when non-empty. |
| Output.FormatError | pkg/output/output.go:331-349 | The message is the API message for an `*APIError` and the error text otherwise. `code` is present exactly for an API error. `suggestion` and `docs_url` are present only for an API error that has them. |
| Output.ErrorEnvelope | pkg/output/output.go:67-72 | The error envelope is `status: error` plus the formatted error. |
| Output.DoFailureFormatsWithoutCode | pkg/output/output.go:331-349 | A failure of `Do` formats as its error text alone, with no code, suggestion or docs URL. |
| Output.DoMetaOmitsRateLimit | pkg/output/output.go:85-95 | The meta object written for a response of `Do` never has `rate_limit_remaining`. |
| Output.Indent | pkg/output/output.go:111 | The indent for level n is 2n spaces. |
| Output.YamlIndented | pkg/output/output.go:110-150 | Every YAML line written for a value at level n starts with 2n spaces. |
| Output.YamlEntriesIndented | pkg/output/output.go:120-126 | Map entries at level n are indented by at least 2n spaces. |
| Output.YamlItemsIndented | pkg/output/output.go:127-133 | Slice items at level n are indented by at least 2n spaces. |
| Output.YamlFieldsIndented | pkg/output/output.go:134-144 | Struct fields at level n are indented by at least 2n spaces. |
| Output.YamlOutput | pkg/output/output.go:103-108 | YAML output starts with `status: success` and `data:`, and everything after is indented at least one level. |
| Output.PanicFrom | pkg/output/output.go:185-190 | The first panicking row from k lies between k and the row count. |
| Output.PanicFromFinds | pkg/output/output.go:185-190 | That row panics and none between k and it does; when there is none, no row from k panics. |
| Output.PanicIndexFinds | pkg/output/output.go:185-190 | The first panicking row is found, and it is absent exactly when no row panics. |
| Output.PassesRow | pkg/output/output.go:185-190 | A row that does not panic adds its record (or table line) to the output, and the search for the first panicking row moves past it. |
| Output.StopsAt | pkg/output/output.go:185-190 | Stopping at a panicking row, or after the last row, the output is the header, then exactly the rows before that point, then the end status. |
| Output.Reached | pkg/output/output.go:185-190 | The rows written before a panic are at most all the rows. |
| Output.CsvRecords | pkg/output/output.go:185-190 | There is one CSV record per row. |
| Output.CsvRecordsAt | pkg/output/output.go:185-190 | Record i is the extracted row i. |
| Output.TableRows | pkg/output/output.go:228-231 | There is one table line per row. |
| Output.TableRowsAt | pkg/output/output.go:228-231 | Table line i is the extracted row i. |
| Output.Dashes | pkg/output/output.go:225 | The rule under the headers has the given length. |
| Output.DashesAreDashes | pkg/output/output.go:225 | The rule consists of dashes only. |
| Output.EntryLines | pkg/output/output.go:240-244 | A map as a single object gives one `key:` / value line per entry. |
| Output.FieldLinesAreExported | pkg/output/output.go:247-255 | A struct as a single object gives one `Name:` / value line per exported field, in order. |
| Output.CsvRequiresRows | pkg/output/output.go:169-171 | CSV fails with "CSV format requires array/slice data" exactly when there is no row set, and then writes nothing. A struct always fails. |
| Output.TableWithoutRows | pkg/output/output.go:212-215 | Without a row set the table is the single-object lines and completes; a struct gives the lines of its exported fields. |
| Output.EmptyRowSet | pkg/output/output.go:173-175 | An empty row set writes nothing as CSV, and "(no results)" as a table. |
| Output.ReachedIsFirstPanic | pkg/output/output.go:185-190 | The rows written before the end do not panic. Output panics exactly when some row panics, and stops at the first such row; otherwise every row is written. |
| Output.CsvShape | pkg/output/output.go:177-192 | CSV output is the header record followed by one record per row reached, each with one cell per header. |
| Output.TableShape | pkg/output/output.go:222-233 | A table is the header line, a rule of 10 dashes per header, then one line per row reached. |
| Output.UniformRowsComplete | pkg/output/output.go:177-190 | Rows of one all-exported struct type with distinct labels are all written, without panic, as their field texts. |
| Output.UniformStructsCsv | pkg/output/output.go:153-193 | For a slice of such structs, CSV output is the label record followed by each struct's field texts, and completes. |
| Output.UniformRecords | pkg/output/output.go:185-190 | For such rows, the records are the field texts of each row. |
| Output.SuccessOutput | pkg/output/output.go:51-64 | json writes the one success-envelope document and completes; yaml writes `YamlOutput`, csv `CsvOutput` and table `TableOutput`. An unknown format fails with "unsupported output format: <format>" and writes nothing. JSON and YAML always complete and write something. Only CSV and table can panic. |
| Output.Writer.constructor | pkg/output/output.go:44-47 | A new writer has the given format and has written nothing. |
| Output.Writer.WriteSuccess | pkg/output/output.go:51-64 | Appends exactly `SuccessOutput(format, data, meta)` and returns its status. |
| Output.Writer.WriteError | pkg/output/output.go:67-76 | Appends one JSON document, the error envelope, whatever the format. |
| Output.Writer.WriteJson | pkg/output/output.go:79-100 | Appends one JSON document, the success envelope. |
| Output.Writer.WriteYaml | pkg/output/output.go:103-108 | Appends `YamlOutput(data)`. |
| Output.Writer.WriteYamlValue | pkg/output/output.go:110-150 | Appends the YAML lines of the value at the given indent. |
| Output.Writer.WriteYamlEntries | pkg/output/output.go:120-126 | Appends `key:` and then the value one level deeper, for each map entry in order. |
| Output.Writer.WriteYamlItems | pkg/output/output.go:127-133 | Appends `-` and then the item one level deeper, for each slice item in order. |
| Output.Writer.WriteYamlFields | pkg/output/output.go:134-144 | Appends `Name:` and then the value, for each exported field in order. |
| Output.Writer.WriteCsv | pkg/output/output.go:153-193 | Appends `CsvOutput(data)` and returns its status. |
| Output.Writer.WriteCsvRows | pkg/output/output.go:177-192 | Appends the header record and the records of the rows up to the first panic, and returns the end status. |
| Output.Writer.WriteTable | pkg/output/output.go:196-234 | Appends `TableOutput(data)` and returns its status. |
| Output.Writer.WriteTableRows | pkg/output/output.go:222-233 | Appends the header line, the rule and the rows up to the first panic, and returns the end status. |
| Output.Writer.WriteTableObject | pkg/output/output.go:237-260 | Appends a map's entries, a struct's exported fields, or `Value:` and the value. |
| ConfigCmd.MaskAPIKey | cmd/config/config.go:93-98 | A mask is 4 bytes for a key of at most 8 bytes and 12 bytes otherwise. |
| ConfigCmd.MaskShape | cmd/config/config.go:93-98 | A short key masks to `****`. A long key masks to its first 4 bytes, `****` and its last 4 bytes. |
| ConfigCmd.MaskRevealsAtMostEight | cmd/config/config.go:93-98 | Each mask byte is a star or a copy of one distinct key position. No byte of a short key is copied, and exactly 8 bytes of a long key are. |
| ConfigCmd.CopiedCount | cmd/config/config.go:93-98 | Exactly the 4 bytes at each end of a long key are copied; nothing of a short key is. |
| ConfigCmd.LongKeysMaskByEnds | cmd/config/config.go:93-98 | Two long keys mask alike exactly when their first 4 and last 4 bytes agree. |
| ConfigCmd.ShortKeysIndistinguishable | cmd/config/config.go:93-98 | Every key of at most 8 bytes masks alike, and never like a longer key. |

## Left out

- `NewWriter` (pkg/output/output.go:33-48) and `Close` (pkg/output/output.go:352-357) are not modelled. They create and close an operating-system file. The model's writer starts from its format and an empty sink.
- JSON encoding, `encoding/csv` quoting and `text/tabwriter` column alignment are not modelled. The sink receives JSON documents as ordered member lists, CSV records as cell lists and table lines as cell lists, before any encoding.
- Go map iteration order is random. The model uses a map's entry order wherever the source iterates `MapKeys()`: YAML, the row-set search, headers, rows and the table object. The envelopes `encoding/json` writes are member lists in its sorted key order.
- Payload.Show: renders a map's entries in the model's entry order, while `fmt` prints map keys sorted.
- `%v` rendering of numbers, floats and addresses is not modelled. A scalar is its own text, and maps, slices and structs render as `map[k:v ...]`, `[a b ...]` and `{a b ...}`.
- Payload.RowSet, Payload.Headers, Payload.Row: interface-typed values are never unwrapped; `Payload.Value` is already the dynamic value. Two Go behaviours are therefore not captured. For `[]interface{}` data the elements have Interface kind (pkg/output/output.go:178-179, 186, 223, 229), so Go finds no headers and writes an empty CSV header record and empty cells (a table gets an empty header line and "" cells), where the model writes real columns. A `map[string]interface{}` holding a slice yields an Interface-kind value from `MapIndex`, so Go's CSV writer fails with "CSV format requires array/slice data" (pkg/output/output.go:160-171), where the model's `RowSet`/`FirstSequence` finds the rows. The CLI's own call sites pass typed structs, where the two agree.
- `http.NewRequestWithContext` failing (client.go:131-134) is not modelled. The method string is not interpreted, so this failure cannot arise.
- URL building and query encoding (client.go:91-97) are not modelled. Only `url.Parse`'s verdict on the joined URL is kept, as `Library.urlError`.
- `json.Unmarshal`, `http.StatusText` and `url.Parse` are not implemented. They are parameters of type `Library`.
- Real time is not modelled. The elapsed time of an exchange comes with the reply, and a wait is recorded as its duration. The HTTP client's timeout is kept as a number only.
- Concurrency and the context are not modelled beyond one boolean per wait: whether it was cancelled during that wait.
- Transport errors are not modelled in detail. A failed transport or an unreadable body is an `Attempt` carrying the cause's text.
- Write errors of the sink, the JSON encoder, the CSV writer and the tabwriter are not modelled. Writing always succeeds.
- Client.RequestHeaders: the headers are not passed to the network. A reply in the model does not depend on the request, so nothing connects the headers to an attempt.
- Client.HeaderGet: does not canonicalise the key as `http.Header.Get` does. Header maps are taken to be keyed by canonical names, which is why the units header is spelled `X-Api-Units-Consumed`.
- Decimal.ScanInt: does not model `Sscanf` skipping leading spaces before the number.
- Output.Writer.WriteYaml: ignores the meta argument, as the source does. The YAML output never includes meta.
- The `Get` and `Post` helpers (client.go:238-253) are not modelled. They only fill in the HTTP method before calling `Do`.
