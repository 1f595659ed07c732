/** Column names and the table schema load builds from the CSV header
    (main.go:118-123): every character outside
    [\p{L}\p{N}\p{Pc}\p{Pd}\p{M}&%=+:'<>#|] becomes `_`, and each column is
    a STRING field. */
module Schema {
  import opened Common
  import Utf8

  const StringFieldType: string := "STRING"
  const Replacement: char := '_'
  const ExtraAllowed: string := "&%=+:'<>#|"

  /** Membership in the allowed class. Within ASCII the categories hold
      exactly A-Z, a-z (L), 0-9 (N), `_` (Pc) and `-` (Pd), and no marks;
      beyond ASCII they are given by nonAscii. */
  predicate Allowed(nonAscii: char -> bool, c: char) {
    if (c as int) < 0x80 then
      'a' <= c <= 'z' || 'A' <= c <= 'Z' || '0' <= c <= '9' || c == '_' || c == '-' || c in ExtraAllowed
    else nonAscii(c)
  }

  /** ReplaceAllString(name, "_") with the class negated. */
  function Sanitize(nonAscii: char -> bool, s: string): string
    decreases |s|
  {
    if s == [] then []
    else [if Allowed(nonAscii, s[0]) then s[0] else Replacement] + Sanitize(nonAscii, s[1..])
  }

  /** Sanitising keeps the length, keeps allowed characters and puts `_`
      in place of every other one. */
  lemma {:induction false} SanitizeAt(nonAscii: char -> bool, s: string)
    ensures |Sanitize(nonAscii, s)| == |s|
    ensures forall i :: 0 <= i < |s| && Allowed(nonAscii, s[i]) ==> Sanitize(nonAscii, s)[i] == s[i]
    ensures forall i :: 0 <= i < |s| && !Allowed(nonAscii, s[i]) ==> Sanitize(nonAscii, s)[i] == Replacement
    decreases |s|
  {
    if s != [] {
      SanitizeAt(nonAscii, s[1..]);
      assert forall i :: 1 <= i < |s| ==> Sanitize(nonAscii, s)[i] == Sanitize(nonAscii, s[1..])[i - 1];
    }
  }

  /** Every character of a sanitised name is allowed. */
  lemma SanitizedIsAllowed(nonAscii: char -> bool, s: string)
    ensures forall i :: 0 <= i < |Sanitize(nonAscii, s)| ==> Allowed(nonAscii, Sanitize(nonAscii, s)[i])
  {
    SanitizeAt(nonAscii, s);
    assert Allowed(nonAscii, Replacement);
  }

  /** A name made only of allowed characters is left as it is. */
  lemma {:induction false} SanitizeKeepsAllowed(nonAscii: char -> bool, s: string)
    requires forall i :: 0 <= i < |s| ==> Allowed(nonAscii, s[i])
    ensures Sanitize(nonAscii, s) == s
    decreases |s|
  {
    if s != [] {
      SanitizeKeepsAllowed(nonAscii, s[1..]);
    }
  }

  /** Sanitising twice is sanitising once, since `_` is allowed. */
  lemma SanitizeIdempotent(nonAscii: char -> bool, s: string)
    ensures Sanitize(nonAscii, Sanitize(nonAscii, s)) == Sanitize(nonAscii, s)
  {
    SanitizedIsAllowed(nonAscii, s);
    SanitizeKeepsAllowed(nonAscii, Sanitize(nonAscii, s));
  }

  /** "a b" becomes "a_b"; "a-b" and "c#1" stay as they are. */
  lemma SanitizeExamples(nonAscii: char -> bool)
    ensures Sanitize(nonAscii, "a b") == "a_b"
    ensures Sanitize(nonAscii, "a-b") == "a-b"
    ensures Sanitize(nonAscii, "c#1") == "c#1"
  {
    assert !Allowed(nonAscii, ' ');
    assert "a b"[1..] == " b" && " b"[1..] == "b" && "b"[1..] == [];
    SanitizeKeepsAllowed(nonAscii, "a-b");
    SanitizeKeepsAllowed(nonAscii, "c#1");
  }

  datatype FieldSchema = FieldSchema(name: string, fieldType: string)

  /** The column name for a header field: its runes, sanitised. */
  function ColumnName(nonAscii: char -> bool, field: seq<byte>): string {
    Sanitize(nonAscii, Utf8.Decode(field))
  }

  /** The schema for a header: one STRING field per column, in order. */
  function SchemaFor(nonAscii: char -> bool, header: seq<seq<byte>>): seq<FieldSchema>
    decreases |header|
  {
    if header == [] then []
    else SchemaFor(nonAscii, header[..|header| - 1])
         + [FieldSchema(ColumnName(nonAscii, header[|header| - 1]), StringFieldType)]
  }

  lemma {:induction false} SchemaFields(nonAscii: char -> bool, header: seq<seq<byte>>)
    ensures |SchemaFor(nonAscii, header)| == |header|
    ensures forall i :: 0 <= i < |header| ==>
              SchemaFor(nonAscii, header)[i] == FieldSchema(ColumnName(nonAscii, header[i]), StringFieldType)
    decreases |header|
  {
    if header != [] {
      var init := header[..|header| - 1];
      SchemaFields(nonAscii, init);
      assert forall i :: 0 <= i < |init| ==> init[i] == header[i];
    }
  }

  /** The loop in load that fills the schema array by index. */
  method BuildSchema(nonAscii: char -> bool, header: seq<seq<byte>>) returns (schema: array<FieldSchema>)
    ensures fresh(schema)
    ensures schema[..] == SchemaFor(nonAscii, header)
  {
    schema := new FieldSchema[|header|];
    for i := 0 to |header|
      invariant schema[..i] == SchemaFor(nonAscii, header[..i])
    {
      schema[i] := FieldSchema(ColumnName(nonAscii, header[i]), StringFieldType);
      assert header[..i + 1][..i] == header[..i];
      assert schema[..i + 1] == schema[..i] + [schema[i]];
    }
    assert header[..|header|] == header;
    assert schema[..] == schema[..|header|];
  }
}
