/** The tweak chain: unzip (main.go:63-81), convert (main.go:55-61), the
    dispatch on the call name (main.go:161-179) and the fold over the
    tweaks in handler (main.go:228-236). */
module Tweaks {
  import opened Common
  import opened Streams

  const UnzipCall: string := "unzip"
  const ConvertCall: string := "convert"
  const CharsetArg: string := "charset"

  datatype Tweak = Tweak(call: string, args: map<string, string>)

  /** t.Args["charset"]: a missing key reads as "". */
  function CharsetLabel(t: Tweak): string {
    if CharsetArg in t.args then t.args[CharsetArg] else ""
  }

  /** What unzip hands on for a stream holding data: nil for an archive
      without entries, otherwise the contents of its first entry. */
  function Unzipped(libs: Libraries, data: seq<byte>): Result<Flow> {
    match libs.openZip(data)
    case None => Err(BadArchive)
    case Some(entries) =>
      if |entries| == 0 then Ok(Nil)
      else match entries[0].contents
        case None => Err(EntryUnreadable)
        case Some(c) => Ok(Data(c))
  }

  /** What convert hands on. On a nil stream the wrapper it builds panics
      on first use, exactly as nil itself does, so it stays Nil. */
  function Converted(libs: Libraries, name: string, f: Flow): Result<Flow> {
    match libs.charset(name)
    case None => Err(UnsupportedCharset(name))
    case Some(decode) => if f.Nil? then Ok(Nil) else Ok(Data(decode(f.bytes)))
  }

  /** What one tweak hands on. */
  function Step(libs: Libraries, t: Tweak, f: Flow): Result<Flow> {
    if t.call == UnzipCall then
      if f.Nil? then Err(Panic(NilStream)) else Unzipped(libs, f.bytes)
    else if t.call == ConvertCall then Converted(libs, CharsetLabel(t), f)
    else Err(UnsupportedCall(t.call))
  }

  /** The tweaks applied in order, each to the previous one's output,
      stopping at the first error. */
  function Chain(libs: Libraries, ts: seq<Tweak>, f: Flow): Result<Flow>
    decreases |ts|
  {
    if ts == [] then Ok(f)
    else match Step(libs, ts[0], f)
      case Err(e) => Err(e)
      case Ok(g) => Chain(libs, ts[1..], g)
  }

  /** Running a + b is running a, then b on what a handed on. */
  lemma {:induction false} ChainAppend(libs: Libraries, a: seq<Tweak>, b: seq<Tweak>, f: Flow)
    ensures Chain(libs, a + b, f) == match Chain(libs, a, f)
                                     case Err(e) => Err(e)
                                     case Ok(g) => Chain(libs, b, g)
    decreases |a|
  {
    if a == [] {
      assert a + b == b;
    } else {
      assert (a + b)[0] == a[0] && (a + b)[1..] == a[1..] + b;
      match Step(libs, a[0], f)
      case Err(e) =>
      case Ok(g) => ChainAppend(libs, a[1..], b, g);
    }
  }

  /** The first failing tweak decides the result; the tweaks after it do not run. */
  lemma ChainStopsAtFirstError(libs: Libraries, ts: seq<Tweak>, f: Flow, k: nat, g: Flow)
    requires k < |ts| && Chain(libs, ts[..k], f) == Ok(g) && Step(libs, ts[k], g).Err?
    ensures Chain(libs, ts, f) == Step(libs, ts[k], g)
  {
    assert ts == ts[..k] + ts[k..];
    ChainAppend(libs, ts[..k], ts[k..], f);
    assert ts[k..][0] == ts[k];
  }

  /** A call other than unzip or convert fails the chain once it is reached. */
  lemma UnknownCallFailsChain(libs: Libraries, ts: seq<Tweak>, f: Flow, k: nat, g: Flow)
    requires k < |ts| && Chain(libs, ts[..k], f) == Ok(g)
    requires ts[k].call != UnzipCall && ts[k].call != ConvertCall
    ensures Chain(libs, ts, f) == Err(UnsupportedCall(ts[k].call))
  {
    ChainStopsAtFirstError(libs, ts, f, k, g);
  }

  /** Tweak k succeeds on what the tweaks before it handed on. */
  ghost predicate StepOk(libs: Libraries, ts: seq<Tweak>, f: Flow, k: nat)
    requires k < |ts|
  {
    Chain(libs, ts[..k], f).Ok? && Step(libs, ts[k], Chain(libs, ts[..k], f).value).Ok?
  }

  /** A chain succeeds exactly when every tweak in turn succeeds. */
  lemma {:induction false} ChainOkIffEveryStepOk(libs: Libraries, ts: seq<Tweak>, f: Flow)
    ensures Chain(libs, ts, f).Ok? <==> forall k :: 0 <= k < |ts| ==> StepOk(libs, ts, f, k)
    decreases |ts|
  {
    if ts != [] {
      assert ts[..0] == [];
      match Step(libs, ts[0], f)
      case Err(e) =>
        assert !StepOk(libs, ts, f, 0);
      case Ok(g) =>
        ChainOkIffEveryStepOk(libs, ts[1..], g);
        forall k | 1 <= k < |ts|
          ensures StepOk(libs, ts, f, k) == StepOk(libs, ts[1..], g, k - 1)
        {
          assert ts[..k][0] == ts[0] && ts[..k][1..] == ts[1..][..k - 1];
          assert ts[1..][k - 1] == ts[k];
        }
        assert StepOk(libs, ts, f, 0);
        if Chain(libs, ts, f).Ok? {
          forall k | 0 <= k < |ts| ensures StepOk(libs, ts, f, k) {
            if k > 0 {
              assert StepOk(libs, ts[1..], g, k - 1);
            }
          }
        } else {
          var j :| 0 <= j < |ts[1..]| && !StepOk(libs, ts[1..], g, j);
          assert !StepOk(libs, ts, f, j + 1);
        }
    }
  }

  /** unzip: buffers the whole stream, closes it, and opens the archive. */
  method Unzip(libs: Libraries, reader: ReadCloser) returns (res: Result<ReadCloser?>)
    requires reader.Valid()
    modifies reader, reader.Base()
    ensures reader.rest == [] && reader.Base().closed
    ensures FlowResult(res) == Unzipped(libs, old(reader.rest))
    ensures res.Ok? && res.value != null ==>
              fresh(res.value) && res.value.Valid() && res.value.Base() == res.value && !res.value.closed
  {
    var data := reader.ReadAll();
    reader.Close();
    reader.BaseAllocated();
    var archive := libs.openZip(data);
    if archive.None? {
      res := Err(BadArchive);
    } else if |archive.value| == 0 {
      res := Ok(null);
    } else if archive.value[0].contents.None? {
      res := Err(EntryUnreadable);
    } else {
      var entry := new ReadCloser.Open(archive.value[0].contents.value);
      res := Ok(entry);
    }
  }

  /** convert: a decoding reader over r, wrapped so that closing it closes r.
      r is left as it is, also when the charset is unknown. */
  method Convert(libs: Libraries, name: string, r: ReadCloser?) returns (res: Result<ReadCloser?>)
    requires r != null ==> r.Valid()
    ensures FlowResult(res) == Converted(libs, name, FlowOf(r))
    ensures res.Ok? && r != null ==>
              res.value != null && fresh(res.value) && res.value.Valid()
              && res.value.closer == r && res.value.Base() == r.Base() && !res.value.closed
  {
    var decoder := libs.charset(name);
    if decoder.None? {
      res := Err(UnsupportedCharset(name));
    } else if r == null {
      res := Ok(null);
    } else {
      var chained := new ReadCloser.Chained(decoder.value(r.rest), r);
      res := Ok(chained);
    }
  }

  /** Tweak.tweak: dispatch on the call name. Only unzip reads or closes
      its input. */
  method ApplyTweak(libs: Libraries, t: Tweak, reader: ReadCloser?) returns (res: Result<ReadCloser?>)
    requires reader != null ==> reader.Valid()
    modifies if reader != null && t.call == UnzipCall then {reader, reader.Base()} else {}
    ensures FlowResult(res) == Step(libs, t, old(FlowOf(reader)))
    ensures t.call == UnzipCall && reader != null ==> reader.rest == [] && reader.Base().closed
    ensures res.Ok? && res.value != null ==>
              && fresh(res.value) && res.value.Valid() && !res.value.closed
              && (fresh(res.value.Base()) || (reader != null && res.value.Base() == reader.Base()))
    ensures t.call == ConvertCall && res.Ok? && reader != null ==>
              res.value != null && res.value.Base() == reader.Base()
  {
    if t.call == UnzipCall {
      if reader == null {
        res := Err(Panic(NilStream));
      } else {
        res := Unzip(libs, reader);
      }
    } else if t.call == ConvertCall {
      res := Convert(libs, CharsetLabel(t), reader);
    } else {
      res := Err(UnsupportedCall(t.call));
    }
  }

  /** The loop in handler that threads the stream through the tweaks. On
      success the fetched stream is either closed already (an unzip closed
      it) or still the one whose Close the result reaches. */
  method ApplyTweaks(libs: Libraries, ts: seq<Tweak>, reader: ReadCloser) returns (res: Result<ReadCloser?>)
    requires reader.Valid()
    modifies reader, reader.Base()
    ensures FlowResult(res) == Chain(libs, ts, old(FlowOf(reader)))
    ensures res.Ok? && res.value != null ==>
              && res.value.Valid()
              && (fresh(res.value) || res.value == reader)
              && (fresh(res.value.Base()) || res.value.Base() == reader.Base())
    ensures res.Ok? && (res.value == null || res.value.Base() != reader.Base()) ==> reader.Base().closed
  {
    reader.BaseAllocated();
    var current: ReadCloser? := reader;
    ghost var start := FlowOf(reader);
    var i := 0;
    while i < |ts|
      invariant 0 <= i <= |ts|
      invariant current != null ==> current.Valid()
      invariant current != null ==> fresh(current) || current == reader
      invariant current != null ==> fresh(current.Base()) || current.Base() == reader.Base()
      invariant current != null && current != reader ==> !current.closed
      invariant current == reader ==> i == 0
      invariant Chain(libs, ts, start) == Chain(libs, ts[i..], FlowOf(current))
      invariant (current == null || current.Base() != reader.Base()) ==> reader.Base().closed
    {
      assert reader.Base().Base() == reader.Base();
      var next := ApplyTweak(libs, ts[i], current);
      assert ts[i..][0] == ts[i] && ts[i..][1..] == ts[i + 1..];
      if next.Err? {
        return Err(next.error);
      }
      current := next.value;
      i := i + 1;
    }
    assert ts[i..] == [];
    if current == reader {
      assert FlowOf(current) == start;
    }
    res := Ok(current);
  }
}
