/** Values shared by every stage of the pipeline: bytes, the error taxonomy,
    and the foreign libraries the pipeline calls but does not implement. */
module Common {

  newtype byte = x: int | 0 <= x < 0x100

  datatype Option<+T> = None | Some(value: T)

  datatype Result<+T> = Ok(value: T) | Err(error: Error)

  /** Why a run would panic in Go instead of returning an error. */
  datatype PanicCause =
    | NilStream       // a method called on a nil io.ReadCloser
    | InvalidPattern  // regexp.MustCompile on a pattern that does not compile

  datatype Error =
    | TransportFailed                  // http.NewRequest or http.DefaultClient.Do failed
    | BadStatus(code: int)             // a response status code above 299
    | UnsupportedCall(call: string)    // a tweak whose call is neither "unzip" nor "convert"
    | UnsupportedCharset(charset: string)
    | BadArchive                       // zip.NewReader refused the buffered bytes
    | EntryUnreadable                  // opening the first archive entry failed
    | ShortInput                       // fewer than 3 bytes to peek at
    | NoRecord                         // no CSV record could be read
    | LoadFailed                       // the warehouse client, job run or job status failed
    | Panic(cause: PanicCause)

  /** A compiled regular expression, as far as the pipeline uses one:
      its subexpression names (index 0 is the whole match) and
      FindAllStringSubmatchIndex, which gives for every match the
      start/end offsets of each group, -1 for a group that did not take part. */
  datatype Regexp = Regexp(subexpNames: seq<string>, findAll: string -> seq<seq<int>>)

  /** One file of a zip archive: its contents when opening it succeeds. */
  datatype ZipEntry = ZipEntry(name: string, contents: Option<seq<byte>>)

  /** The foreign code the pipeline relies on. */
  datatype Libraries = Libraries(
    compile: string -> Option<Regexp>,                    // regexp.Compile
    charset: string -> Option<seq<byte> -> seq<byte>>,    // charset.Lookup and its decoder
    openZip: seq<byte> -> Option<seq<ZipEntry>>,          // zip.NewReader, entries in archive order
    nonAsciiAllowed: char -> bool                         // \p{L}\p{N}\p{Pc}\p{Pd}\p{M} beyond ASCII
  )
}
