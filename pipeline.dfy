/** The pipeline one HTTP call to the service runs (handler, main.go:196-246):
    resolve the extraction (preExtract, main.go:270-294), fetch, apply the
    tweaks, and load the CSV into a table (load, main.go:102-141). */
module Pipeline {
  import opened Common
  import opened Streams
  import Utf8
  import Template
  import Csv
  import Schema
  import opened Tweaks
  import opened Http

  datatype Extraction = Extraction(httpMethod: string, url: string, body: map<string, string>)

  datatype PreExtraction = PreExtraction(
    httpMethod: string, url: string, body: map<string, string>, pattern: string)

  datatype Loading = Loading(projectID: string, datasetID: string, tableID: string)

  /** The JSON document a call carries, once decoded. */
  datatype PipelineRequest = PipelineRequest(
    preExtraction: PreExtraction,
    extraction: Extraction,
    tweaks: seq<Tweak>,
    loading: Loading)

  /** preExtract's two results: the extraction and the error, if any. */
  datatype Resolved = Resolved(extraction: Extraction, err: Option<Error>)

  /** The pre-extraction is skipped when both its method and URL are empty. */
  predicate Skipped(p: PreExtraction) {
    p.httpMethod == "" && p.url == ""
  }

  /** The requests preExtract sends: none when skipped, otherwise one. */
  function PreRequests(p: PreExtraction): seq<HttpRequest> {
    if Skipped(p) then [] else [RequestFor(p.httpMethod, p.url, p.body)]
  }

  /** What preExtract returns when its request, if any, is request number n. */
  function Resolve(libs: Libraries, p: PreExtraction, e: Extraction, reply: (HttpRequest, nat) -> Reply, n: nat): Resolved {
    if Skipped(p) then Resolved(e, None)
    else match Accept(reply(RequestFor(p.httpMethod, p.url, p.body), n))
      case Err(err) => Resolved(e, Some(err))
      case Ok(bytes) =>
        match libs.compile(p.pattern)
        case None => Resolved(e, Some(Panic(InvalidPattern)))
        case Some(re) =>
          Resolved(Extraction(e.httpMethod, e.url, Template.Format(e.body, re, Utf8.Decode(bytes))), None)
  }

  /** With method and URL both empty the extraction is handed back as it is
      and nothing is sent. */
  lemma ResolveFastPath(libs: Libraries, p: PreExtraction, e: Extraction, reply: (HttpRequest, nat) -> Reply, n: nat)
    requires p.httpMethod == "" && p.url == ""
    ensures Resolve(libs, p, e, reply, n) == Resolved(e, None)
    ensures PreRequests(p) == []
  {
  }

  /** Only one of method and URL empty is not enough to skip the fetch. */
  lemma ResolveFetchesUnlessBothEmpty(p: PreExtraction)
    ensures |PreRequests(p)| == 1 <==> (p.httpMethod != "" || p.url != "")
    ensures |PreRequests(p)| <= 1
  {
  }

  /** A failed fetch hands back the input extraction with the error. */
  lemma ResolveFetchError(libs: Libraries, p: PreExtraction, e: Extraction, reply: (HttpRequest, nat) -> Reply, n: nat)
    requires !Skipped(p) && Accept(reply(RequestFor(p.httpMethod, p.url, p.body), n)).Err?
    ensures Resolve(libs, p, e, reply, n)
         == Resolved(e, Some(Accept(reply(RequestFor(p.httpMethod, p.url, p.body), n)).error))
  {
  }

  /** A successful fetch keeps method and URL and replaces the body by the
      templates expanded against the fetched content. */
  lemma ResolveSuccess(libs: Libraries, p: PreExtraction, e: Extraction, reply: (HttpRequest, nat) -> Reply, n: nat, re: Regexp)
    requires !Skipped(p) && Accept(reply(RequestFor(p.httpMethod, p.url, p.body), n)).Ok?
    requires libs.compile(p.pattern) == Some(re)
    ensures Resolve(libs, p, e, reply, n).err == None
    ensures Resolve(libs, p, e, reply, n).extraction.httpMethod == e.httpMethod
    ensures Resolve(libs, p, e, reply, n).extraction.url == e.url
    ensures Resolve(libs, p, e, reply, n).extraction.body.Keys == e.body.Keys
    ensures Resolve(libs, p, e, reply, n).extraction.body
         == Template.Format(e.body, re, Utf8.Decode(Accept(reply(RequestFor(p.httpMethod, p.url, p.body), n)).value))
  {
    Template.FormatKeys(e.body, re, Utf8.Decode(Accept(reply(RequestFor(p.httpMethod, p.url, p.body), n)).value));
  }

  /** Whatever happens, an error leaves the extraction as it was. */
  lemma ResolveErrorKeepsInput(libs: Libraries, p: PreExtraction, e: Extraction, reply: (HttpRequest, nat) -> Reply, n: nat)
    ensures Resolve(libs, p, e, reply, n).err.Some? ==> Resolve(libs, p, e, reply, n).extraction == e
    ensures Resolve(libs, p, e, reply, n).extraction.httpMethod == e.httpMethod
    ensures Resolve(libs, p, e, reply, n).extraction.url == e.url
  {
  }

  /** PreExtraction.preExtract. The fetched stream is read to its end and
      closed before the result is returned, also when the pattern does not
      compile. */
  method PreExtract(libs: Libraries, p: PreExtraction, e: Extraction, net: Network) returns (r: Resolved)
    modifies net
    ensures net.sent == old(net.sent) + PreRequests(p)
    ensures r == Resolve(libs, p, e, net.reply, |old(net.sent)|)
  {
    if p.httpMethod == "" && p.url == "" {
      return Resolved(e, None);
    }
    var fetched := Request(net, p.httpMethod, p.url, p.body);
    if fetched.Err? {
      return Resolved(e, Some(fetched.error));
    }
    var reader := fetched.value;
    var b := reader.ReadAll();
    var content := Utf8.Decode(b);
    var pattern := libs.compile(p.pattern);
    if pattern.None? {
      reader.Close();
      return Resolved(e, Some(Panic(InvalidPattern)));
    }
    var body := Template.FormatMap(e.body, pattern.value, content);
    reader.Close();
    r := Resolved(Extraction(e.httpMethod, e.url, body), None);
  }

  /** A BigQuery load job as load configures it. */
  datatype LoadJob = LoadJob(
    projectID: string,
    datasetID: string,
    tableID: string,
    schema: seq<Schema.FieldSchema>,
    rows: seq<byte>,
    writeTruncate: bool,
    allowQuotedNewlines: bool)

  /** The job load submits for what the tweaks handed on, or why none is
      submitted. A nil stream makes csvHeader's first read panic. */
  function LoadJobFor(libs: Libraries, loading: Loading, f: Flow): (r: Result<LoadJob>)
    ensures f.Nil? ==> r == Err(Panic(NilStream))
    ensures r.Ok? ==> r.value.writeTruncate && r.value.allowQuotedNewlines
  {
    match f
    case Nil => Err(Panic(NilStream))
    case Data(bytes) =>
      match Csv.Header(bytes)
      case Err(e) => Err(e)
      case Ok(h) =>
        Ok(LoadJob(loading.projectID, loading.datasetID, loading.tableID,
                   Schema.SchemaFor(libs.nonAsciiAllowed, h.0), h.1, true, true))
  }

  /** A job has one STRING column per header field, named after it, and
      loads the bytes after the header into the table load names. */
  lemma LoadJobShape(libs: Libraries, loading: Loading, bytes: seq<byte>)
    requires Csv.Header(bytes).Ok?
    ensures LoadJobFor(libs, loading, Data(bytes)).Ok?
    ensures var job := LoadJobFor(libs, loading, Data(bytes)).value;
            var header := Csv.Header(bytes).value.0;
            && job.projectID == loading.projectID && job.datasetID == loading.datasetID
            && job.tableID == loading.tableID
            && |job.schema| == |header|
            && (forall i :: 0 <= i < |header| ==>
                  job.schema[i] == Schema.FieldSchema(Schema.ColumnName(libs.nonAsciiAllowed, header[i]), Schema.StringFieldType))
            && job.rows == Csv.Header(bytes).value.1
  {
    Schema.SchemaFields(libs.nonAsciiAllowed, Csv.Header(bytes).value.0);
  }

  /** The warehouse: every job submitted is appended to jobs, and the m-th
      one (counting from 0) succeeds when accepts(job, m) holds. Client
      creation, the job run, the wait and the job status all fold into
      that one verdict. */
  class Warehouse {
    var jobs: seq<LoadJob>
    const accepts: (LoadJob, nat) -> bool

    constructor (accepts: (LoadJob, nat) -> bool)
      ensures jobs == [] && this.accepts == accepts
    {
      jobs := [];
      this.accepts := accepts;
    }

    method Submit(job: LoadJob) returns (ok: bool)
      modifies this
      ensures jobs == old(jobs) + [job]
      ensures ok == accepts(job, |old(jobs)|)
    {
      ok := accepts(job, |jobs|);
      jobs := jobs + [job];
    }
  }

  /** The jobs load submits and the error it returns, for a flow f when the
      warehouse has taken m jobs before. */
  function LoadOutcome(libs: Libraries, loading: Loading, f: Flow, accepts: (LoadJob, nat) -> bool, m: nat)
    : (seq<LoadJob>, Option<Error>)
  {
    match LoadJobFor(libs, loading, f)
    case Err(e) => ([], Some(e))
    case Ok(job) => ([job], if accepts(job, m) then None else Some(LoadFailed))
  }

  /** load. Once csvHeader has returned, the stream is closed on every path
      (the deferred r.Close()); a nil stream panics before that. */
  method Load(libs: Libraries, loading: Loading, r: ReadCloser?, wh: Warehouse) returns (err: Option<Error>)
    requires r != null ==> r.Valid()
    modifies wh, if r != null then {r, r.Base()} else {}
    ensures wh.jobs == old(wh.jobs) + LoadOutcome(libs, loading, old(FlowOf(r)), wh.accepts, |old(wh.jobs)|).0
    ensures err == LoadOutcome(libs, loading, old(FlowOf(r)), wh.accepts, |old(wh.jobs)|).1
    ensures r != null ==> r.Base().closed
  {
    if r == null {
      return Some(Panic(NilStream));
    }
    var header, br := Csv.CsvHeader(r);
    r.Close();
    r.BaseAllocated();
    if header.Err? {
      return Some(header.error);
    }
    var schema := Schema.BuildSchema(libs.nonAsciiAllowed, header.value);
    var job := LoadJob(loading.projectID, loading.datasetID, loading.tableID,
                       schema[..], br.Remaining(), true, true);
    var ok := wh.Submit(job);
    err := if ok then None else Some(LoadFailed);
  }

  /** How a call ends: 200 with "{}"; 500 because of an error; or a panic,
      which handler does not recover: the HTTP server recovers it, logs it
      and closes the connection without writing a response. */
  datatype Outcome = Loaded | Failed(error: Error) | Aborted(cause: PanicCause)

  /** How a call ends when a stage returns err: a panic aborts it, any
      other error is answered with 500. */
  function Ended(err: Error): (r: Outcome)
    ensures r.Aborted? <==> err.Panic?
    ensures r.Failed? ==> r.error == err
    ensures !r.Loaded?
  {
    if err.Panic? then Aborted(err.cause) else Failed(err)
  }

  /** Everything a call does that can be seen from outside: the requests
      sent, the jobs submitted, and how it ends. */
  datatype Trace = Trace(requests: seq<HttpRequest>, jobs: seq<LoadJob>, outcome: Outcome)

  /** What the tweaks and load make of the fetched stream: the jobs
      submitted and how the call ends. */
  datatype Ending = Ending(jobs: seq<LoadJob>, outcome: Outcome)

  /** The tweaks applied to f, then load on what they hand on, when the
      warehouse has taken m jobs before. */
  function Finished(libs: Libraries, tweaks: seq<Tweak>, loading: Loading, f: Flow,
                    accepts: (LoadJob, nat) -> bool, m: nat): Ending
  {
    match Chain(libs, tweaks, f)
    case Err(err) => Ending([], Ended(err))
    case Ok(g) =>
      var (jobs, err) := LoadOutcome(libs, loading, g, accepts, m);
      Ending(jobs, if err.None? then Loaded else Ended(err.value))
  }

  /** The request for a resolved extraction, numbered n, and what follows it. */
  function Delivered(libs: Libraries, e: Extraction, tweaks: seq<Tweak>, loading: Loading,
                     reply: (HttpRequest, nat) -> Reply, n: nat, accepts: (LoadJob, nat) -> bool, m: nat): Trace
  {
    var req := RequestFor(e.httpMethod, e.url, e.body);
    match Accept(reply(req, n))
    case Err(err) => Trace([req], [], Ended(err))
    case Ok(bytes) =>
      var end := Finished(libs, tweaks, loading, Data(bytes), accepts, m);
      Trace([req], end.jobs, end.outcome)
  }

  /** What handler does with a decoded request when the network has sent n
      requests and the warehouse taken m jobs before. */
  function Run(libs: Libraries, d: PipelineRequest, reply: (HttpRequest, nat) -> Reply, n: nat,
               accepts: (LoadJob, nat) -> bool, m: nat): Trace
  {
    var pre := PreRequests(d.preExtraction);
    var resolved := Resolve(libs, d.preExtraction, d.extraction, reply, n);
    if resolved.err.Some? then Trace(pre, [], Ended(resolved.err.value))
    else
      var t := Delivered(libs, resolved.extraction, d.tweaks, d.loading, reply, n + |pre|, accepts, m);
      Trace(pre + t.requests, t.jobs, t.outcome)
  }

  /** Once the extraction is resolved, handler's trace is the
      pre-extraction's requests followed by the delivery t. */
  lemma RunDelivers(libs: Libraries, d: PipelineRequest, reply: (HttpRequest, nat) -> Reply, n: nat,
                    accepts: (LoadJob, nat) -> bool, m: nat, r: Resolved, t: Trace)
    requires r == Resolve(libs, d.preExtraction, d.extraction, reply, n) && r.err.None?
    requires t == Delivered(libs, r.extraction, d.tweaks, d.loading, reply, n + |PreRequests(d.preExtraction)|, accepts, m)
    ensures Run(libs, d, reply, n, accepts, m) == Trace(PreRequests(d.preExtraction) + t.requests, t.jobs, t.outcome)
  {
  }

  /** When preExtract fails, handler ends with its error and sends nothing
      more. */
  lemma RunStopsAtResolveError(libs: Libraries, d: PipelineRequest, reply: (HttpRequest, nat) -> Reply, n: nat,
                               accepts: (LoadJob, nat) -> bool, m: nat, err: Error)
    requires Resolve(libs, d.preExtraction, d.extraction, reply, n).err == Some(err)
    ensures Run(libs, d, reply, n, accepts, m) == Trace(PreRequests(d.preExtraction), [], Ended(err))
  {
  }

  /** A pattern that does not compile makes MustCompile panic after the
      page is fetched: the call is aborted before the extraction is fetched
      and without a response. */
  lemma RunInvalidPattern(libs: Libraries, d: PipelineRequest, reply: (HttpRequest, nat) -> Reply, n: nat,
                          accepts: (LoadJob, nat) -> bool, m: nat)
    requires !Skipped(d.preExtraction)
    requires Accept(reply(RequestFor(d.preExtraction.httpMethod, d.preExtraction.url, d.preExtraction.body), n)).Ok?
    requires libs.compile(d.preExtraction.pattern).None?
    ensures Run(libs, d, reply, n, accepts, m)
         == Trace(PreRequests(d.preExtraction), [], Aborted(InvalidPattern))
  {
    RunStopsAtResolveError(libs, d, reply, n, accepts, m, Panic(InvalidPattern));
  }

  /** The loop over the tweaks in handler, then load. Once the tweaks
      succeed the fetched stream ends up closed: by unzip, or by load's
      deferred Close through the chain of wrappers. */
  method Finish(libs: Libraries, tweaks: seq<Tweak>, loading: Loading, reader: ReadCloser, wh: Warehouse)
    returns (outcome: Outcome)
    requires reader.Valid()
    modifies reader, reader.Base(), wh
    ensures var end := Finished(libs, tweaks, loading, old(FlowOf(reader)), wh.accepts, |old(wh.jobs)|);
            wh.jobs == old(wh.jobs) + end.jobs && outcome == end.outcome
    ensures Chain(libs, tweaks, old(FlowOf(reader))).Ok? ==> reader.Base().closed
  {
    reader.BaseAllocated();
    var tweaked := ApplyTweaks(libs, tweaks, reader);
    if tweaked.Err? {
      return Ended(tweaked.error);
    }
    assert reader.Base().Base() == reader.Base();
    var err := Load(libs, loading, tweaked.value, wh);
    outcome := if err.None? then Loaded else Ended(err.value);
  }

  /** The request in handler and all that follows it. */
  method Deliver(libs: Libraries, e: Extraction, tweaks: seq<Tweak>, loading: Loading, net: Network, wh: Warehouse,
                 ghost n: nat)
    returns (outcome: Outcome)
    requires n == |net.sent|
    modifies net, wh
    ensures var t := Delivered(libs, e, tweaks, loading, net.reply, n, wh.accepts, |old(wh.jobs)|);
            net.sent == old(net.sent) + t.requests && wh.jobs == old(wh.jobs) + t.jobs && outcome == t.outcome
  {
    var fetched := Request(net, e.httpMethod, e.url, e.body);
    if fetched.Err? {
      return Ended(fetched.error);
    }
    outcome := Finish(libs, tweaks, loading, fetched.value, wh);
  }

  /** handler, after the JSON is decoded. */
  method Handle(libs: Libraries, d: PipelineRequest, net: Network, wh: Warehouse) returns (outcome: Outcome)
    modifies net, wh
    ensures var t := Run(libs, d, net.reply, |old(net.sent)|, wh.accepts, |old(wh.jobs)|);
            net.sent == old(net.sent) + t.requests && wh.jobs == old(wh.jobs) + t.jobs && outcome == t.outcome
  {
    ghost var sent0, jobs0 := net.sent, wh.jobs;
    var resolved := PreExtract(libs, d.preExtraction, d.extraction, net);
    if resolved.err.Some? {
      RunStopsAtResolveError(libs, d, net.reply, |sent0|, wh.accepts, |jobs0|, resolved.err.value);
      return Ended(resolved.err.value);
    }
    ghost var pre, n1 := PreRequests(d.preExtraction), |sent0| + |PreRequests(d.preExtraction)|;
    ghost var t := Delivered(libs, resolved.extraction, d.tweaks, d.loading, net.reply, n1, wh.accepts, |jobs0|);
    RunDelivers(libs, d, net.reply, |sent0|, wh.accepts, |jobs0|, resolved, t);
    outcome := Deliver(libs, resolved.extraction, d.tweaks, d.loading, net, wh, n1);
    assert (sent0 + pre) + t.requests == sent0 + (pre + t.requests);
  }

  /** A call sends at most two requests and submits at most one job, and it
      ends well only when a job was submitted. */
  lemma RunBounds(libs: Libraries, d: PipelineRequest, reply: (HttpRequest, nat) -> Reply, n: nat,
                  accepts: (LoadJob, nat) -> bool, m: nat)
    ensures var t := Run(libs, d, reply, n, accepts, m);
            1 <= |t.requests| <= 2 && |t.jobs| <= 1
            && (t.outcome.Loaded? ==> |t.jobs| == 1)
  {
    var resolved := Resolve(libs, d.preExtraction, d.extraction, reply, n);
    if resolved.err.None? {
      var e := resolved.extraction;
      var pre := PreRequests(d.preExtraction);
      match Accept(reply(RequestFor(e.httpMethod, e.url, e.body), n + |pre|))
      case Err(_) =>
      case Ok(bytes) =>
        FinishedBounds(libs, d.tweaks, d.loading, Data(bytes), accepts, m);
    }
  }

  lemma FinishedBounds(libs: Libraries, tweaks: seq<Tweak>, loading: Loading, f: Flow,
                       accepts: (LoadJob, nat) -> bool, m: nat)
    ensures var end := Finished(libs, tweaks, loading, f, accepts, m);
            |end.jobs| <= 1 && (end.outcome.Loaded? ==> |end.jobs| == 1)
  {
  }

  /** Without a pre-extraction the one request sent is the extraction as
      the call gave it. */
  lemma RunFastPath(libs: Libraries, d: PipelineRequest, reply: (HttpRequest, nat) -> Reply, n: nat,
                    accepts: (LoadJob, nat) -> bool, m: nat)
    requires Skipped(d.preExtraction)
    ensures Run(libs, d, reply, n, accepts, m).requests
         == [RequestFor(d.extraction.httpMethod, d.extraction.url, d.extraction.body)]
  {
  }

  /** The flow the tweaks of a call start from: the fetched response body. */
  ghost predicate FetchedAs(libs: Libraries, d: PipelineRequest, reply: (HttpRequest, nat) -> Reply, n: nat, bytes: seq<byte>) {
    var resolved := Resolve(libs, d.preExtraction, d.extraction, reply, n);
    && resolved.err.None?
    && var e := resolved.extraction;
       Accept(reply(RequestFor(e.httpMethod, e.url, e.body), n + |PreRequests(d.preExtraction)|)) == Ok(bytes)
  }

  /** Once the body is fetched, the tweaks and load decide the rest. */
  lemma RunAfterFetch(libs: Libraries, d: PipelineRequest, reply: (HttpRequest, nat) -> Reply, n: nat,
                      accepts: (LoadJob, nat) -> bool, m: nat, bytes: seq<byte>)
    requires FetchedAs(libs, d, reply, n, bytes)
    ensures Run(libs, d, reply, n, accepts, m).jobs == Finished(libs, d.tweaks, d.loading, Data(bytes), accepts, m).jobs
    ensures Run(libs, d, reply, n, accepts, m).outcome == Finished(libs, d.tweaks, d.loading, Data(bytes), accepts, m).outcome
  {
  }

  /** The first failing tweak ends the call with its error, and nothing is
      loaded. */
  lemma RunStopsAtFailingTweak(libs: Libraries, d: PipelineRequest, reply: (HttpRequest, nat) -> Reply, n: nat,
                               accepts: (LoadJob, nat) -> bool, m: nat, bytes: seq<byte>, k: nat, g: Flow)
    requires FetchedAs(libs, d, reply, n, bytes)
    requires k < |d.tweaks| && Chain(libs, d.tweaks[..k], Data(bytes)) == Ok(g)
    requires Step(libs, d.tweaks[k], g).Err?
    ensures Run(libs, d, reply, n, accepts, m).jobs == []
    ensures Run(libs, d, reply, n, accepts, m).outcome == Ended(Step(libs, d.tweaks[k], g).error)
  {
    RunAfterFetch(libs, d, reply, n, accepts, m, bytes);
    ChainStopsAtFirstError(libs, d.tweaks, Data(bytes), k, g);
  }

  /** A job is submitted exactly when every tweak succeeds on what the one
      before it handed on and a header can be read from the result. */
  lemma RunLoadsIffEveryTweakSucceeds(libs: Libraries, d: PipelineRequest, reply: (HttpRequest, nat) -> Reply, n: nat,
                                      accepts: (LoadJob, nat) -> bool, m: nat, bytes: seq<byte>)
    requires FetchedAs(libs, d, reply, n, bytes)
    ensures Run(libs, d, reply, n, accepts, m).jobs != [] ==>
              forall k :: 0 <= k < |d.tweaks| ==> StepOk(libs, d.tweaks, Data(bytes), k)
    ensures (forall k :: 0 <= k < |d.tweaks| ==> StepOk(libs, d.tweaks, Data(bytes), k)) ==>
              && Chain(libs, d.tweaks, Data(bytes)).Ok?
              && (Run(libs, d, reply, n, accepts, m).jobs != [] <==>
                    LoadJobFor(libs, d.loading, Chain(libs, d.tweaks, Data(bytes)).value).Ok?)
  {
    RunAfterFetch(libs, d, reply, n, accepts, m, bytes);
    ChainOkIffEveryStepOk(libs, d.tweaks, Data(bytes));
  }

  /** A call other than unzip or convert aborts the call before anything is
      loaded. */
  lemma RunUnknownTweak(libs: Libraries, d: PipelineRequest, reply: (HttpRequest, nat) -> Reply, n: nat,
                        accepts: (LoadJob, nat) -> bool, m: nat, bytes: seq<byte>, k: nat, g: Flow)
    requires FetchedAs(libs, d, reply, n, bytes)
    requires k < |d.tweaks| && Chain(libs, d.tweaks[..k], Data(bytes)) == Ok(g)
    requires d.tweaks[k].call != UnzipCall && d.tweaks[k].call != ConvertCall
    ensures Run(libs, d, reply, n, accepts, m).jobs == []
    ensures Run(libs, d, reply, n, accepts, m).outcome == Failed(UnsupportedCall(d.tweaks[k].call))
  {
    RunStopsAtFailingTweak(libs, d, reply, n, accepts, m, bytes, k, g);
  }

  /** With no tweaks the fetched body is what load reads. */
  lemma RunWithoutTweaks(libs: Libraries, d: PipelineRequest, reply: (HttpRequest, nat) -> Reply, n: nat,
                         accepts: (LoadJob, nat) -> bool, m: nat, bytes: seq<byte>)
    requires FetchedAs(libs, d, reply, n, bytes) && d.tweaks == []
    ensures Run(libs, d, reply, n, accepts, m).jobs == LoadOutcome(libs, d.loading, Data(bytes), accepts, m).0
    ensures Run(libs, d, reply, n, accepts, m).outcome
         == (var err := LoadOutcome(libs, d.loading, Data(bytes), accepts, m).1;
             if err.None? then Loaded else Ended(err.value))
  {
    RunAfterFetch(libs, d, reply, n, accepts, m, bytes);
  }

  /** unzip on an archive without entries hands on nil, and load then
      panics: nothing is loaded. */
  lemma RunEmptyArchive(libs: Libraries, d: PipelineRequest, reply: (HttpRequest, nat) -> Reply, n: nat,
                        accepts: (LoadJob, nat) -> bool, m: nat, bytes: seq<byte>)
    requires FetchedAs(libs, d, reply, n, bytes)
    requires d.tweaks == [Tweak(UnzipCall, map[])] && libs.openZip(bytes) == Some([])
    ensures Run(libs, d, reply, n, accepts, m).jobs == []
    ensures Run(libs, d, reply, n, accepts, m).outcome == Aborted(NilStream)
  {
    RunAfterFetch(libs, d, reply, n, accepts, m, bytes);
    assert Chain(libs, d.tweaks, Data(bytes)) == Ok(Nil) by {
      assert d.tweaks[1..] == [];
    }
  }

  /** The CSV carrying a byte-order mark, "\uFEFFa,b,c\n1,2,3\n". */
  const ExampleCsv: seq<byte> := [0xEF, 0xBB, 0xBF, 0x61, 0x2C, 0x62, 0x2C, 0x63, 0x0A, 0x31, 0x2C, 0x32, 0x2C, 0x33, 0x0A]

  /** A zip archive whose first entry holds that CSV, unzipped and loaded:
      one job with STRING columns a, b, c and the row "1,2,3\n". */
  lemma RunZippedCsvExample(libs: Libraries, d: PipelineRequest, reply: (HttpRequest, nat) -> Reply, n: nat,
                            accepts: (LoadJob, nat) -> bool, m: nat, bytes: seq<byte>)
    requires FetchedAs(libs, d, reply, n, bytes)
    requires d.tweaks == [Tweak(UnzipCall, map[])]
    requires libs.openZip(bytes) == Some([ZipEntry("data.csv", Some(ExampleCsv))])
    ensures Run(libs, d, reply, n, accepts, m).jobs
         == [LoadJob(d.loading.projectID, d.loading.datasetID, d.loading.tableID,
                     [Schema.FieldSchema("a", "STRING"), Schema.FieldSchema("b", "STRING"), Schema.FieldSchema("c", "STRING")],
                     [0x31, 0x2C, 0x32, 0x2C, 0x33, 0x0A], true, true)]
  {
    RunAfterFetch(libs, d, reply, n, accepts, m, bytes);
    assert Chain(libs, d.tweaks, Data(bytes)) == Ok(Data(ExampleCsv)) by {
      assert d.tweaks[1..] == [];
    }
    ExampleCsvJob(libs, d.loading);
  }

  /** The job load submits for that CSV. */
  lemma ExampleCsvJob(libs: Libraries, loading: Loading)
    ensures LoadJobFor(libs, loading, Data(ExampleCsv))
         == Ok(LoadJob(loading.projectID, loading.datasetID, loading.tableID,
                       [Schema.FieldSchema("a", "STRING"), Schema.FieldSchema("b", "STRING"), Schema.FieldSchema("c", "STRING")],
                       [0x31, 0x2C, 0x32, 0x2C, 0x33, 0x0A], true, true))
  {
    Csv.HeaderExample();
    ExampleSchema(libs.nonAsciiAllowed);
  }

  /** The schema for the header a, b, c. */
  lemma ExampleSchema(nonAscii: char -> bool)
    ensures Schema.SchemaFor(nonAscii, [[0x61], [0x62], [0x63]])
         == [Schema.FieldSchema("a", "STRING"), Schema.FieldSchema("b", "STRING"), Schema.FieldSchema("c", "STRING")]
  {
    var header: seq<seq<byte>> := [[0x61], [0x62], [0x63]];
    ColumnNameExample(nonAscii, 0x61, 'a');
    ColumnNameExample(nonAscii, 0x62, 'b');
    ColumnNameExample(nonAscii, 0x63, 'c');
    Schema.SchemaFields(nonAscii, header);
  }

  /** A one-byte ASCII letter field names the column after that letter. */
  lemma ColumnNameExample(nonAscii: char -> bool, b: byte, c: char)
    requires 0x61 <= b <= 0x7A && c as int == b as int
    ensures Schema.ColumnName(nonAscii, [b]) == [c]
  {
    Utf8.DecodeAscii([b]);
    Schema.SanitizeKeepsAllowed(nonAscii, [c]);
  }
}
