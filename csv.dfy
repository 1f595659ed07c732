/** csvHeader (main.go:83-100): peek at 3 bytes, drop a UTF-8 byte-order
    mark, read one CSV record, and hand on the reader positioned after it. */
module Csv {
  import opened Common
  import opened Streams

  const Comma: byte := 0x2C
  const Newline: byte := 0x0A
  const CarriageReturn: byte := 0x0D
  const ByteOrderMark: seq<byte> := [0xEF, 0xBB, 0xBF]

  /** Index of the first x in s. */
  function IndexOf(s: seq<byte>, x: byte): (i: nat)
    requires x in s
    ensures i < |s| && s[i] == x && x !in s[..i]
  {
    if s[0] == x then 0
    else
      assert s == [s[0]] + s[1..];
      var j := IndexOf(s[1..], x);
      assert s[..j + 1] == [s[0]] + s[1..][..j];
      j + 1
  }

  /** The first x in s is at i when s[i] is x and none comes before. */
  lemma {:induction false} FirstIndex(s: seq<byte>, x: byte, i: nat)
    requires i < |s| && s[i] == x && x !in s[..i]
    ensures IndexOf(s, x) == i
  {
    if i > 0 {
      assert s[..i][0] == s[0];
      assert s[1..][..i - 1] == s[1..i];
      assert forall k :: 0 <= k < i - 1 ==> s[1..i][k] == s[..i][k + 1];
      FirstIndex(s[1..], x, i - 1);
    }
  }

  /** The fields of a record line: the bytes between commas. */
  function Split(s: seq<byte>): (fields: seq<seq<byte>>)
    ensures |fields| >= 1
    decreases |s|
  {
    if Comma !in s then [s]
    else
      var i := IndexOf(s, Comma);
      [s[..i]] + Split(s[i + 1..])
  }

  /** Fields put back together with commas between them. */
  function Join(fields: seq<seq<byte>>): seq<byte>
    requires |fields| >= 1
  {
    if |fields| == 1 then fields[0] else fields[0] + [Comma] + Join(fields[1..])
  }

  lemma {:induction false} JoinSplit(s: seq<byte>)
    ensures Join(Split(s)) == s
    decreases |s|
  {
    if Comma in s {
      var i := IndexOf(s, Comma);
      var fields := Split(s);
      assert fields == [s[..i]] + Split(s[i + 1..]);
      assert fields[0] == s[..i] && fields[1..] == Split(s[i + 1..]);
      JoinSplit(s[i + 1..]);
      assert Join(fields) == s[..i] + [Comma] + s[i + 1..];
      assert s == s[..i] + [Comma] + s[i + 1..];
    }
  }

  lemma {:induction false} SplitFieldsHaveNoComma(s: seq<byte>)
    ensures forall i :: 0 <= i < |Split(s)| ==> Comma !in Split(s)[i]
    decreases |s|
  {
    if Comma in s {
      SplitFieldsHaveNoComma(s[IndexOf(s, Comma) + 1..]);
    }
  }

  /** Splitting gives back fields that contain no comma. */
  lemma {:induction false} SplitJoin(fields: seq<seq<byte>>)
    requires |fields| >= 1
    requires forall i :: 0 <= i < |fields| ==> Comma !in fields[i]
    ensures Split(Join(fields)) == fields
  {
    if |fields| > 1 {
      var s := Join(fields);
      assert s == fields[0] + [Comma] + Join(fields[1..]);
      assert s[|fields[0]|] == Comma;
      assert s[..|fields[0]|] == fields[0];
      assert Comma !in s[..|fields[0]|];
      FirstIndex(s, Comma, |fields[0]|);
      assert s[|fields[0]| + 1..] == Join(fields[1..]);
      SplitJoin(fields[1..]);
    }
  }

  /** Length of the first line: through its newline, or all of s. */
  function LineLength(s: seq<byte>): (n: nat)
    ensures n <= |s|
    ensures s != [] ==> n >= 1
  {
    if Newline in s then IndexOf(s, Newline) + 1 else |s|
  }

  /** A line's text as encoding/csv sees it: a "\r\n" or "\n" ending is
      dropped, and so is a final "\r" at the end of the input. */
  function LineText(line: seq<byte>): (t: seq<byte>)
    ensures |t| <= |line|
  {
    var n := |line|;
    if n >= 2 && line[n - 2] == CarriageReturn && line[n - 1] == Newline then line[..n - 2]
    else if n >= 1 && (line[n - 1] == Newline || line[n - 1] == CarriageReturn) then line[..n - 1]
    else line
  }

  /** csv.Reader.Read with LazyQuotes, for records of unquoted fields: empty
      lines are skipped, then one line is split at commas. Gives the fields
      and the number of bytes consumed; None at the end of the input. */
  function ReadRecord(s: seq<byte>): (r: Option<(seq<seq<byte>>, nat)>)
    ensures r.Some? ==> r.value.1 <= |s| && |r.value.0| >= 1
    decreases |s|
  {
    if s == [] then None
    else
      var n := LineLength(s);
      var text := LineText(s[..n]);
      if text != [] then Some((Split(text), n))
      else match ReadRecord(s[n..])
        case None => None
        case Some(rec) => Some((rec.0, n + rec.1))
  }

  /** The record after the optional byte-order mark, and the bytes after it. */
  function HeaderOf(body: seq<byte>): (r: Result<(seq<seq<byte>>, seq<byte>)>)
    ensures r.Err? ==> r.error == NoRecord
  {
    match ReadRecord(body)
    case None => Err(NoRecord)
    case Some(rec) => Ok((rec.0, body[rec.1..]))
  }

  /** What csvHeader returns for a stream holding s: the header fields and
      the bytes left for the rows. */
  function Header(s: seq<byte>): (r: Result<(seq<seq<byte>>, seq<byte>)>)
  {
    if |s| < 3 then Err(ShortInput)
    else if s[..3] == ByteOrderMark then HeaderOf(s[3..])
    else HeaderOf(s)
  }

  /** csvHeader: r is read into a buffered reader, which is handed back
      positioned just after the header record. */
  method CsvHeader(r: ReadCloser) returns (header: Result<seq<seq<byte>>>, br: BufferedReader?)
    modifies r
    ensures r.rest == [] && r.closed == old(r.closed)
    ensures Header(old(r.rest)).Err? ==> header == Err(Header(old(r.rest)).error) && br == null
    ensures Header(old(r.rest)).Ok? ==>
              && header == Ok(Header(old(r.rest)).value.0)
              && br != null && fresh(br) && br.Valid()
              && br.Remaining() == Header(old(r.rest)).value.1
  {
    var data := r.ReadAll();
    var b := new BufferedReader(data);
    var bom := b.Peek(3);
    if bom.Err? {
      return Err(bom.error), null;
    }
    if bom.value[0] == 0xEF && bom.value[1] == 0xBB && bom.value[2] == 0xBF {
      assert bom.value == ByteOrderMark;
      var _ := b.Discard(3);
    } else {
      assert data[..3] != ByteOrderMark;
    }
    match ReadRecord(b.Remaining())
    case None =>
      return Err(NoRecord), null;
    case Some(rec) =>
      var _ := b.Discard(rec.1);
      return Ok(rec.0), b;
  }

  /** Fewer than 3 bytes fail, whatever they are. */
  lemma HeaderNeedsThreeBytes(s: seq<byte>)
    ensures Header(s).Err? <==> |s| < 3 || ReadRecord(if s[..3] == ByteOrderMark then s[3..] else s).None?
    ensures |s| < 3 ==> Header(s) == Err(ShortInput)
  {
  }

  /** A byte-order mark is dropped: exactly those 3 bytes. */
  lemma HeaderDropsMark(rest: seq<byte>)
    ensures Header(ByteOrderMark + rest) == HeaderOf(rest)
  {
    assert (ByteOrderMark + rest)[..3] == ByteOrderMark;
    assert (ByteOrderMark + rest)[3..] == rest;
  }

  /** Without a byte-order mark no byte is dropped. */
  lemma HeaderKeepsOtherBytes(s: seq<byte>)
    requires |s| >= 3 && s[..3] != ByteOrderMark
    ensures Header(s) == HeaderOf(s)
  {
  }

  /** A record line at the front of s: its fields are the line split at
      commas, and exactly that line and its newline are consumed. */
  lemma ReadRecordFirstLine(line: seq<byte>, tail: seq<byte>)
    requires line != [] && Newline !in line && line[|line| - 1] != CarriageReturn
    ensures ReadRecord(line + [Newline] + tail) == Some((Split(line), |line| + 1))
  {
    var s := line + [Newline] + tail;
    assert s[..|line|] == line;
    FirstIndex(s, Newline, |line|);
    assert s[..|line| + 1] == line + [Newline];
    assert LineText(line + [Newline]) == line;
  }

  /** The header carrying a byte-order mark, EF BB BF then "a,b,c\n1,2,3\n":
      fields a, b, c and rows "1,2,3\n". */
  lemma HeaderExample()
    ensures Header([0xEF, 0xBB, 0xBF, 0x61, 0x2C, 0x62, 0x2C, 0x63, 0x0A, 0x31, 0x2C, 0x32, 0x2C, 0x33, 0x0A])
         == Ok(([[0x61], [0x62], [0x63]], [0x31, 0x2C, 0x32, 0x2C, 0x33, 0x0A]))
  {
    var line: seq<byte> := [0x61, 0x2C, 0x62, 0x2C, 0x63];
    var rows: seq<byte> := [0x31, 0x2C, 0x32, 0x2C, 0x33, 0x0A];
    var rest := line + [Newline] + rows;
    assert [0xEF, 0xBB, 0xBF, 0x61, 0x2C, 0x62, 0x2C, 0x63, 0x0A, 0x31, 0x2C, 0x32, 0x2C, 0x33, 0x0A] == ByteOrderMark + rest;
    HeaderDropsMark(rest);
    ReadRecordFirstLine(line, rows);
    assert rest[6..] == rows;
    SplitExample();
  }

  lemma SplitExample()
    ensures Split([0x61, 0x2C, 0x62, 0x2C, 0x63]) == [[0x61], [0x62], [0x63]]
  {
    var line: seq<byte> := [0x61, 0x2C, 0x62, 0x2C, 0x63];
    var tail: seq<byte> := [0x62, 0x2C, 0x63];
    FirstIndex(line, Comma, 1);
    assert line[..1] == [0x61] && line[2..] == tail;
    FirstIndex(tail, Comma, 1);
    assert tail[..1] == [0x62] && tail[2..] == [0x63];
    assert Split([0x63]) == [[0x63]];
  }
}
