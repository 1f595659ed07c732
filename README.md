# tweakle in Dafny

tweakle is a small declarative ETL service. One HTTP call carries a JSON
document with four parts: an optional pre-extraction, an extraction, a list
of tweaks and a loading target. The service runs these stages:

1. The pre-extraction, when it has a method or a URL, fetches a page. Every
   body template of the extraction is then expanded against every match of a
   regular expression in that page.
2. The extraction is fetched.
3. The tweaks (`unzip`, `convert`) transform the fetched stream one after
   another.
4. The CSV header is read, dropping a UTF-8 byte-order mark when there is one.
   Each column name is sanitised.
5. The rows are loaded into a BigQuery table, so that they replace what the
   table held before.

The model has one module per stage, all taken from `main.go`:

| module | file | models |
|---|---|---|
| `Common` | common.dfy | bytes, `Option`/`Result`, the error kinds, and the foreign libraries the service calls (`Libraries`) |
| `Utf8` | utf8.dfy | UTF-8 decoding of bytes to runes, with an invalid byte becoming U+FFFD, and the matching encoder; it turns the fetched page and the header fields into strings |
| `Template` | template.dfy | `formatMap` together with the `$name` / `${name}` / `$$` rules of `Regexp.ExpandString` |
| `Streams` | streams.dfy | `io.ReadCloser` as a class, `ChainedCloser` close delegation, and the `bufio.Reader` that `csvHeader` peeks through |
| `Csv` | csv.dfy | `csvHeader`: the 3-byte peek, the byte-order mark, and one record read |
| `Schema` | schema.dfy | column-name sanitisation and the schema loop in `load` |
| `Tweaks` | tweaks.dfy | `unzip`, `convert`, `Tweak.tweak` and the loop over the tweaks |
| `Http` | http.dfy | `request`: the form values, the Content-Type decision and the status check |
| `Pipeline` | pipeline.dfy | `preExtract`, `load` and `handler` |

Each state-changing operation is a method over classes:
- `ReadCloser` holds the bytes still to read, a closed flag and the stream that its Close delegates to.
- `Network` keeps a log of the requests sent.
- `Warehouse` keeps a log of the jobs submitted.

Each method's `ensures` ties its results and its new state to a pure function
(`Format`, `Header`, `Chain`, `Resolve`, `LoadJobFor`, `Run`), and the
properties are proved as lemmas about those functions.

Foreign code is a parameter:
- `regexp.Compile` together with its matches and group names;
- the charset decoders;
- the zip reader;
- the Unicode categories above U+007F;
- the network's replies, a function of the request and its sequence number;
- the warehouse's verdict on each job.

A Go nil stream is `null` (`Flow.Nil` as a value). A Go panic is the error
`Panic(cause)`, and a call it reaches ends as `Aborted(cause)`.

## Model

| member | source | states |
|---|---|---|
| `Template.Format` | main.go:248-261 | computes what formatMap returns: every key of the template map, mapped to its template expanded against every match in turn, concatenated |
| `Template.FormatKeys` | main.go:248-261 | the result has exactly the template map's keys, and with no match every value is "" |
| `Template.Expand` | main.go:256 | computes what Regexp.ExpandString appends for one match: `$$` becomes `$`, a well-formed `$name` or `${name}` becomes the group it names (by number, or the first group of that name that took part), and any other `$` is kept |
| `Template.ParseRef` | main.go:256 | reads `name` or `{name}` after a `$`; a reference found has a non-empty name of name characters and leaves a shorter rest of the template |
| `Template.FormatMap` | main.go:248-261 | the nested loop over keys and matches builds exactly `Format`: each key gets its template expanded against every match, concatenated in match order |
| `Template.ExpandString` | main.go:256 | computes one ExpandString step: the expansion for one match appended to what the key's value holds so far |
| `Template.ExpandAllAppend` | main.go:255-257 | expanding against the matches a + b gives the expansion against a followed by the expansion against b |
| `Template.ExpandAllOne` | main.go:255-257 | one more match appends exactly that match's expansion to the value |
| `Template.TwoMatches` | main.go:255-257 | two matches give the expansion for the first followed by the one for the second |
| `Template.FormatSplitsAtMatch` | main.go:248-261 | a key's value, split at any match index, is the expansion over the first matches followed by the expansion over the rest |
| `Template.ExpandLiteral` | main.go:256 | a template without `$` expands to itself for every match |
| `Template.ExpandWholeMatch` | main.go:256 | `$0` and `${0}` both expand to the text of the whole match |
| `Template.ParseRefZero` | main.go:256 | `0` and `{0}` after a `$` are references to group 0 that end the template |
| `Utf8.Decode` | main.go:284 | computes the bytes as a string of runes, decoding UTF-8 and turning each invalid byte into U+FFFD; it stands in for `string(b)`, which keeps the raw bytes |
| `Utf8.DecodeEncode` | main.go:284 | decoding the UTF-8 encoding of any string gives that string back |
| `Utf8.DecodeAscii` | main.go:121 | bytes below 0x80 decode one rune each, to the same code points |
| `Streams.ReadCloser.Close` | main.go:27-28 | closing a stream closes the stream at the end of its chain of wrappers and leaves that stream's bytes as they were |
| `Streams.ReadCloser.Chained` | main.go:22-28 | a ChainedCloser reads its own bytes and delegates Close to the stream it wraps, so both close the same underlying resource |
| `Streams.ReadCloser.ReadAll` | main.go:65 | reading to the end gives every remaining byte and leaves none; the closed flag is unchanged |
| `Streams.BufferedReader.Peek` | main.go:84-88 | with fewer than n bytes left Peek fails with a short-input error; otherwise it gives the next n bytes and consumes none |
| `Streams.BufferedReader.Discard` | main.go:90-92 | Discard skips min(n, remaining) bytes and no more |
| `Csv.ReadRecord` | main.go:93-98 | computes one record read: empty lines are skipped, then one line without its line ending is split at commas; a record found consumes no more bytes than there are and has at least one field, and the end of the input gives none |
| `Csv.Header` | main.go:83-100 | computes csvHeader's result for a stream's bytes: a short-input error below 3 bytes, otherwise the record after the optional byte-order mark and the bytes after that record |
| `Csv.CsvHeader` | main.go:83-100 | the method gives `Header` of the stream's bytes: the header fields, and a buffered reader positioned just after the header record; or the error, with no reader |
| `Csv.HeaderNeedsThreeBytes` | main.go:85-88 | fewer than 3 bytes is a short-input error whatever they are; otherwise the header fails exactly when no record follows the optional mark |
| `Csv.HeaderDropsMark` | main.go:89-92 | with bytes EF BB BF in front, exactly those 3 bytes are dropped before the record is read |
| `Csv.HeaderKeepsOtherBytes` | main.go:89-92 | with any other first 3 bytes, no byte is dropped |
| `Csv.ReadRecordFirstLine` | main.go:93-98 | a non-empty first line ending in a newline is split at its commas, and exactly that line and its newline are consumed |
| `Csv.JoinSplit` | main.go:93-95 | the fields of a line joined by commas give back the line |
| `Csv.SplitJoin` | main.go:93-95 | comma-free fields joined by commas split back into the same fields |
| `Csv.SplitFieldsHaveNoComma` | main.go:93-95 | no field contains a comma |
| `Csv.HeaderExample` | main.go:83-100 | the marked input "a,b,c\n1,2,3\n" gives the header a, b, c and leaves "1,2,3\n" for the rows |
| `Schema.Allowed` | main.go:119 | computes membership in the class [\p{L}\p{N}\p{Pc}\p{Pd}\p{M}&%=+:'<>#\|]: within ASCII the letters, digits, `_`, `-` and the listed signs; above ASCII a given predicate |
| `Schema.Sanitize` | main.go:121 | computes ReplaceAllString(name, "_"): each character outside the allowed class replaced by `_` |
| `Schema.SanitizeAt` | main.go:119-121 | the character count is kept, every allowed character is kept, and every other character becomes `_` |
| `Schema.SanitizedIsAllowed` | main.go:119-121 | every character of a sanitised name is in the allowed class |
| `Schema.SanitizeKeepsAllowed` | main.go:119-121 | a name made only of allowed characters is unchanged |
| `Schema.SanitizeIdempotent` | main.go:119-121 | sanitising twice gives the same name as sanitising once, since `_` is allowed |
| `Schema.SanitizeExamples` | main.go:119-121 | "a b" becomes "a_b"; "a-b" and "c#1" are unchanged |
| `Schema.SchemaFor` | main.go:118-123 | computes the schema load builds: one field per header column, in order |
| `Schema.SchemaFields` | main.go:118-123 | the schema has one field per header column, in header order, named by the column's sanitised name and typed STRING |
| `Schema.BuildSchema` | main.go:118-124 | the loop fills a new array of exactly that schema |
| `Tweaks.Unzipped` | main.go:63-81 | computes what unzip hands on for data: a bad-archive error, nil for an archive without entries, or the contents of the first entry |
| `Tweaks.Converted` | main.go:55-61 | computes what convert hands on: an unsupported-charset error, or the decoded bytes; nil stays nil |
| `Tweaks.Step` | main.go:161-179 | computes what one tweak hands on: unzip (a nil stream panics), convert with its `charset` argument, or an unsupported-call error for any other call |
| `Tweaks.Chain` | main.go:228-236 | computes the loop over the tweaks: each applied to the previous one's output, ending at the first error |
| `Tweaks.ChainAppend` | main.go:228-236 | running tweaks a + b is running a, then b on what a handed on; an error in a ends it |
| `Tweaks.ChainStopsAtFirstError` | main.go:228-236 | the first failing tweak's error is the chain's result, and no later tweak runs |
| `Tweaks.UnknownCallFailsChain` | main.go:165-172 | a call other than unzip or convert fails the chain with an unsupported-call error once it is reached |
| `Tweaks.ChainOkIffEveryStepOk` | main.go:228-236 | the chain succeeds if and only if every tweak succeeds on the output of the tweaks before it |
| `Tweaks.Unzip` | main.go:63-81 | the input is read to its end and closed; an archive without entries gives a nil stream and no error; otherwise the result is a new open stream over the first entry only; the zip reader's errors pass through |
| `Tweaks.Convert` | main.go:55-61 | an unknown charset is an error and leaves the input open and unread; otherwise the result is a new wrapper over the decoded bytes whose Close closes the input |
| `Tweaks.ApplyTweak` | main.go:161-179 | dispatch on the call name: unzip and convert as above, any other name an unsupported-call error; only unzip reads or closes its input, and a converted stream's Close reaches the same stream as its input's |
| `Tweaks.ApplyTweaks` | main.go:228-236 | the loop hands each tweak the previous one's stream, stops at the first error, and ends with the flow `Chain` gives for the fetched bytes; on success the fetched stream is either closed already (by an unzip) or still the one the result's Close reaches |
| `Http.RequestFor` | main.go:31-42 | computes the request request builds: method and URL, the form of the body's entries, and the form Content-Type when the form is not empty |
| `Http.FormValues` | main.go:31-34 | the form values have exactly the body's keys, each with its one value |
| `Http.ContentTypeIffBody` | main.go:35-42 | Content-Type is set, to the form encoding, if and only if the body has entries; the form has the body's keys |
| `Http.Accept` | main.go:43-52 | a transport failure is an error |
| `Http.AcceptIffStatus` | main.go:48-52 | a reply succeeds if and only if its status is at most 299, codes below 200 included; then it delivers the body unchanged, and otherwise the error carries the status |
| `Http.Network.Do` | main.go:43-47 | each request sent is appended to the log and answered by the reply for its sequence number |
| `Http.Request` | main.go:30-53 | one request built from method, URL and body goes out; the result is the verdict on its reply, with the body as a new open stream on success |
| `Pipeline.Resolve` | main.go:270-294 | computes preExtract's result: the input when method and URL are both empty; the input with the fetch error; the input with a pattern panic; or the input's method and URL with its body templates expanded over the fetched page |
| `Pipeline.ResolveFastPath` | main.go:271-273 | empty method and URL give the input extraction back unchanged, and no request is sent |
| `Pipeline.ResolveFetchesUnlessBothEmpty` | main.go:271-274 | one request is sent exactly when method or URL is non-empty, so one empty field is not enough to skip the fetch |
| `Pipeline.ResolveFetchError` | main.go:274-277 | a failed fetch gives the input extraction back together with the fetch error |
| `Pipeline.ResolveSuccess` | main.go:280-293 | after a successful fetch the result keeps the input's method and URL, and its body is `formatMap` of the input's body templates over the fetched content |
| `Pipeline.ResolveErrorKeepsInput` | main.go:270-294 | on every error path the extraction is the input one, and method and URL are always kept |
| `Pipeline.PreExtract` | main.go:270-294 | the method sends exactly the requests `PreRequests` names (none when skipped, otherwise one) and returns what `Resolve` gives for the reply to them |
| `Pipeline.LoadJobFor` | main.go:102-128 | a nil stream panics; every job is write-truncate and allows quoted newlines |
| `Pipeline.LoadJobShape` | main.go:115-128 | a job goes to the loading target, has one STRING column per header field named by that field, and loads the bytes after the header |
| `Pipeline.LoadOutcome` | main.go:102-141 | computes what load does: no job and the error when no job can be built, otherwise that one job, with a load failure when the warehouse rejects it |
| `Pipeline.Warehouse.Submit` | main.go:126-139 | each job submitted is appended to the log and judged by the verdict for its sequence number |
| `Pipeline.Load` | main.go:102-141 | the job submitted and the error returned are those of `LoadOutcome`; r is closed on every path once csvHeader has returned |
| `Pipeline.Ended` | main.go:211-245 | a stage's error ends the call aborted when it is a panic, and answered with 500 otherwise; it never ends in success |
| `Pipeline.Finished` | main.go:228-243 | computes what the tweaks and load make of the fetched stream: the first tweak error with no job, otherwise load's jobs and the outcome of its error |
| `Pipeline.Finish` | main.go:228-243 | the tweaks and then load on the fetched stream submit the jobs, and end with the outcome, that `Finished` gives; once the tweaks succeed the fetched stream is closed, by unzip or by load's deferred Close |
| `Pipeline.Delivered` | main.go:219-243 | computes the extraction's request and what follows it: a failed fetch ends the call with that error and no job, otherwise `Finished` on the fetched bytes |
| `Pipeline.Deliver` | main.go:219-243 | the request for the extraction and what follows it add exactly `Delivered`'s requests and jobs, and end with its outcome |
| `Pipeline.Run` | main.go:211-245 | computes what a call does: preExtract's requests, then, unless it failed, the extraction's request, the tweaks and load, with the jobs submitted and the way the call ends |
| `Pipeline.Handle` | main.go:211-245 | one call adds exactly `Run`'s requests to the network's log and its jobs to the warehouse's log, and ends with `Run`'s outcome |
| `Pipeline.RunBounds` | main.go:211-245 | a call sends one or two requests and submits at most one job, and it ends in success only after submitting one |
| `Pipeline.RunStopsAtResolveError` | main.go:211-217 | when preExtract fails, the call ends with its error after preExtract's own requests, and no job is submitted |
| `Pipeline.RunInvalidPattern` | main.go:285 | a pattern that does not compile aborts the call after the page is fetched, before the extraction is fetched and with no job |
| `Pipeline.RunFastPath` | main.go:211-219 | without a pre-extraction the only request sent is the call's own extraction, unchanged |
| `Pipeline.RunStopsAtFailingTweak` | main.go:228-236 | the first failing tweak ends the call with its error, and no job is submitted |
| `Pipeline.RunLoadsIffEveryTweakSucceeds` | main.go:228-243 | a job is submitted only if every tweak succeeded; when they all did, a job is submitted exactly when a header can be read from the result |
| `Pipeline.RunUnknownTweak` | main.go:165-172 | an unknown call ends the call with an unsupported-call error before anything is loaded |
| `Pipeline.RunWithoutTweaks` | main.go:228-243 | with zero tweaks, load reads the fetched body unchanged: the call's jobs are load's jobs for those bytes, and it ends in success exactly when load returns no error, otherwise as that error dictates |
| `Pipeline.RunEmptyArchive` | main.go:77-79 | unzip of an archive without entries hands load a nil stream, and the call is aborted by a nil-stream panic with no job |
| `Pipeline.RunZippedCsvExample` | main.go:63-123 | a fetched zip whose first entry is the marked CSV "a,b,c\n1,2,3\n" loads one job with STRING columns a, b, c and the row "1,2,3\n" |

## Left out

- The HTTP server is not modelled. This covers `main`, the JSON decoding of the call and the response writing (main.go:143-159, 204-210, 239-245). One outcome stands for the response: `Loaded` (200), `Failed` (500), or `Aborted` for a panic. handler does not recover a panic; the HTTP server recovers it, logs it and closes the connection without writing a response.
- Building and sending a request (`http.NewRequest`, `http.DefaultClient.Do`) is collapsed into the network's reply. A failure of either is `TransportFailed`. The form's URL encoding is not modelled; the request carries the form values themselves.
- The BigQuery client, the loader run, the job wait and the job status are collapsed into the warehouse's verdict per job, and any failure among them is `LoadFailed`. The job records the target, the schema, the rows, write-truncate and quoted-newline tolerance.
- The regular-expression engine is a parameter: its compile result, its group names and its matches. A pattern that does not compile is the error `Panic(InvalidPattern)`, which aborts the call as `regexp.MustCompile`'s panic does.
- Pipeline.Resolve: the fetched page is decoded as UTF-8 before the pattern runs, whereas `string(b)` copies the bytes unchanged (main.go:284). An invalid UTF-8 byte in the page therefore becomes U+FFFD in the content, and in every captured value in the expanded body, where Go copies the raw byte.
- Match offsets index characters of the decoded content. Go's offsets index bytes. The two agree on ASCII content.
- Template.ParseRef: a group name made of non-ASCII letters or digits is not recognised; only ASCII letters, digits and `_` are. Template.Expand therefore keeps such a `$name` as text, where Go substitutes the group.
- Template.Capture: a group index pair that lies outside the content, which the engine never produces, gives "".
- The unzip, charset decoders and Unicode categories are parameters. The zip reader gives the archive's entries in order. A charset is a lookup of a decoder over the whole byte string. The categories \p{L}, \p{N}, \p{Pc}, \p{Pd} and \p{M} are written out for ASCII and given by `nonAsciiAllowed` above it.
- Streams are read eagerly: a decoding wrapper holds its decoded bytes from the start. Read errors are not modelled, and neither is io.Copy failing in unzip or io.ReadAll failing with `log.Fatal` in preExtract (main.go:280-283).
- Csv.ReadRecord: records are lines split at commas. Quoted fields, which encoding/csv handles with LazyQuotes, are not modelled.
- A nil stream handed to convert is modelled as nil. In Go it becomes a wrapper that panics on first use, so load ends with the same nil-stream panic either way.
- The response body of a status above 299 is not modelled as a stream. Go leaves it unclosed.
- The error messages and all logging are not modelled.

### Behaviour of the code worth noting

- Status codes: only a status above 299 is rejected, so codes below 200 are accepted (main.go:48); see `Http.AcceptIffStatus`.
- Closing on error: convert with an unknown charset, and a tweak with an unknown call, return their error without closing the input (main.go:56-59, 170-171).
- Empty archives: unzip of an archive without entries succeeds with a nil stream (main.go:77-79). csvHeader's first read of that stream then panics, and the call is aborted (`Pipeline.RunEmptyArchive`).
