/** Template expansion (formatMap, main.go:248-261): every template is
    expanded, with the rules of Go's Regexp.ExpandString, against every
    match of the pattern, and the expansions are concatenated per key. */
module Template {
  import opened Common

  /** A character that may appear in a group name after `$`. */
  predicate IsNameChar(c: char) {
    'a' <= c <= 'z' || 'A' <= c <= 'Z' || '0' <= c <= '9' || c == '_'
  }

  /** Length of the longest prefix of s made of name characters. */
  function NameLength(s: string): (n: nat)
    ensures n <= |s|
    ensures forall i :: 0 <= i < n ==> IsNameChar(s[i])
    ensures n < |s| ==> !IsNameChar(s[n])
  {
    if s == [] || !IsNameChar(s[0]) then 0 else 1 + NameLength(s[1..])
  }

  /** The value of a run of decimal digits read after acc, or -1 as soon as
      a non-digit appears or the value read so far has reached 10^8. */
  function Digits(s: string, acc: nat): (n: int)
    ensures n >= 0 ==> forall i :: 0 <= i < |s| ==> '0' <= s[i] <= '9'
    ensures n >= -1
  {
    if s == [] then acc
    else if !('0' <= s[0] <= '9') || acc >= 100_000_000 then -1
    else Digits(s[1..], acc * 10 + (s[0] as int - '0' as int))
  }

  /** The group number a reference names, or -1 when the name is not a
      decimal number (a leading zero makes it a name too). */
  function GroupNumber(name: string): (n: int)
    ensures n >= 0 ==> forall i :: 0 <= i < |name| ==> '0' <= name[i] <= '9'
    ensures n >= -1
  {
    if |name| > 1 && name[0] == '0' then -1 else Digits(name, 0)
  }

  /** A group reference read after a `$`: its name, its number (-1 for a
      named reference) and the template text that follows it. */
  datatype Ref = Ref(name: string, num: int, rest: string)

  /** Reads `name` or `{name}` at the start of s; None when malformed. */
  function ParseRef(s: string): (r: Option<Ref>)
    ensures r.Some? ==> |r.value.rest| < |s| && r.value.name != []
    ensures r.Some? ==> forall i :: 0 <= i < |r.value.name| ==> IsNameChar(r.value.name[i])
  {
    if s == [] then None
    else
      var brace := s[0] == '{';
      var t := if brace then s[1..] else s;
      var n := NameLength(t);
      if n == 0 then None
      else if !brace then Some(Ref(t[..n], GroupNumber(t[..n]), t[n..]))
      else if n < |t| && t[n] == '}' then Some(Ref(t[..n], GroupNumber(t[..n]), t[n + 1..]))
      else None
  }

  /** The text of group i of a match, or "" when the group did not take part.
      A pair outside the content (which the regexp engine never produces)
      also gives "". */
  function Capture(content: string, m: seq<int>, i: nat): (r: string)
    ensures |r| <= |content|
  {
    if 2 * i + 1 < |m| && 0 <= m[2 * i] <= m[2 * i + 1] <= |content|
    then content[m[2 * i]..m[2 * i + 1]]
    else ""
  }

  /** The text of the first group from index i on that bears the name and
      took part in the match. */
  function NamedCapture(name: string, names: seq<string>, content: string, m: seq<int>, i: nat): string
    decreases |names| - i
  {
    if i >= |names| then ""
    else if names[i] == name && 2 * i + 1 < |m| && m[2 * i] >= 0 then Capture(content, m, i)
    else NamedCapture(name, names, content, m, i + 1)
  }

  function Substitute(ref: Ref, names: seq<string>, content: string, m: seq<int>): string {
    if ref.num >= 0 then Capture(content, m, ref.num) else NamedCapture(ref.name, names, content, m, 0)
  }

  /** The template with `$$` turned into `$`, each well-formed `$name` or
      `${name}` replaced by the group it names, and any other `$` kept. */
  function Expand(template: string, names: seq<string>, content: string, m: seq<int>): string
    decreases |template|
  {
    if template == [] then ""
    else if template[0] != '$' then [template[0]] + Expand(template[1..], names, content, m)
    else if |template| > 1 && template[1] == '$' then "$" + Expand(template[2..], names, content, m)
    else match ParseRef(template[1..])
      case None => "$" + Expand(template[1..], names, content, m)
      case Some(ref) => Substitute(ref, names, content, m) + Expand(ref.rest, names, content, m)
  }

  /** Regexp.ExpandString: the expansion appended to dst. */
  function ExpandString(dst: string, template: string, names: seq<string>, content: string, m: seq<int>): string {
    dst + Expand(template, names, content, m)
  }

  /** f of every match, concatenated in match order. */
  function Concat(ms: seq<seq<int>>, f: seq<int> -> string): string
    decreases |ms|
  {
    if ms == [] then "" else Concat(ms[..|ms| - 1], f) + f(ms[|ms| - 1])
  }

  /** The template expanded against every match, concatenated in match order. */
  function ExpandAll(template: string, names: seq<string>, content: string, ms: seq<seq<int>>): string {
    Concat(ms, m => Expand(template, names, content, m))
  }

  /** What formatMap returns for a compiled pattern. */
  function Format(templates: map<string, string>, re: Regexp, content: string): map<string, string> {
    map k | k in templates :: ExpandAll(templates[k], re.subexpNames, content, re.findAll(content))
  }

  /** The result has exactly the templates' keys, and without a match every
      value is empty. */
  lemma FormatKeys(templates: map<string, string>, re: Regexp, content: string)
    ensures Format(templates, re, content).Keys == templates.Keys
    ensures re.findAll(content) == [] ==> forall k :: k in templates ==> Format(templates, re, content)[k] == ""
  {
  }

  /** formatMap: the nested loop over keys and matches. */
  method FormatMap(templates: map<string, string>, re: Regexp, content: string) returns (m: map<string, string>)
    ensures m == Format(templates, re, content)
  {
    var matches := re.findAll(content);
    m := map[];
    var keys := templates.Keys;
    while keys != {}
      invariant keys <= templates.Keys
      invariant m.Keys == templates.Keys - keys
      invariant forall k :: k in m ==> m[k] == ExpandAll(templates[k], re.subexpNames, content, matches)
      decreases keys
    {
      var key :| key in keys;
      var template := templates[key];
      var result := "";
      var j := 0;
      while j < |matches|
        invariant 0 <= j <= |matches|
        invariant result == ExpandAll(template, re.subexpNames, content, matches[..j])
      {
        assert matches[..j + 1] == matches[..j] + [matches[j]];
        ExpandAllOne(template, re.subexpNames, content, matches[..j], matches[j]);
        result := ExpandString(result, template, re.subexpNames, content, matches[j]);
        j := j + 1;
      }
      assert matches[..j] == matches;
      m := m[key := result];
      keys := keys - {key};
    }
  }

  /** Concatenating over two runs of matches is concatenating over each in turn. */
  lemma {:induction false} ConcatAppend(a: seq<seq<int>>, b: seq<seq<int>>, f: seq<int> -> string)
    ensures Concat(a + b, f) == Concat(a, f) + Concat(b, f)
    decreases |b|
  {
    if b == [] {
      assert a + b == a;
    } else {
      var init := b[..|b| - 1];
      assert (a + b)[..|a + b| - 1] == a + init;
      assert (a + b)[|a + b| - 1] == b[|b| - 1];
      ConcatAppend(a, init, f);
      assert (Concat(a, f) + Concat(init, f)) + f(b[|b| - 1]) == Concat(a, f) + (Concat(init, f) + f(b[|b| - 1]));
    }
  }

  /** Expanding against two runs of matches is expanding against each in turn. */
  lemma ExpandAllAppend(template: string, names: seq<string>, content: string, a: seq<seq<int>>, b: seq<seq<int>>)
    ensures ExpandAll(template, names, content, a + b)
         == ExpandAll(template, names, content, a) + ExpandAll(template, names, content, b)
  {
    ConcatAppend(a, b, m => Expand(template, names, content, m));
  }

  /** The value for one match is that match's expansion; one match more
      appends its expansion. */
  lemma ExpandAllOne(template: string, names: seq<string>, content: string, ms: seq<seq<int>>, m: seq<int>)
    ensures ExpandAll(template, names, content, ms + [m])
         == ExpandAll(template, names, content, ms) + Expand(template, names, content, m)
  {
    assert (ms + [m])[..|ms|] == ms;
  }

  /** A template without `$` expands to itself. */
  lemma {:induction false} ExpandLiteral(template: string, names: seq<string>, content: string, m: seq<int>)
    requires forall i :: 0 <= i < |template| ==> template[i] != '$'
    ensures Expand(template, names, content, m) == template
    decreases |template|
  {
    if template != [] {
      ExpandLiteral(template[1..], names, content, m);
    }
  }

  /** "0" and "{0}" after a `$` name group 0 and end the template. */
  lemma ParseRefZero()
    ensures ParseRef("0") == Some(Ref("0", 0, ""))
    ensures ParseRef("{0}") == Some(Ref("0", 0, ""))
  {
    assert "0"[1..] == [] && "0"[..1] == "0";
    assert Digits("0", 0) == Digits("", 0) == 0;
    assert NameLength("0") == 1;
    assert "{0}"[1..] == "0}" && "0}"[..1] == "0" && "0}"[2..] == [];
    assert NameLength("0}") == 1;
  }

  /** `$0` and `${0}` both expand to the whole match. */
  lemma ExpandWholeMatch(names: seq<string>, content: string, m: seq<int>)
    requires |m| >= 2 && 0 <= m[0] <= m[1] <= |content|
    ensures Expand("$0", names, content, m) == content[m[0]..m[1]]
    ensures Expand("${0}", names, content, m) == content[m[0]..m[1]]
  {
    ParseRefZero();
    var t, u := "$0", "${0}";
    assert t[0] == '$' && t[1] == '0' && t[1..] == "0";
    assert u[0] == '$' && u[1] == '{' && u[1..] == "{0}";
    assert Substitute(Ref("0", 0, ""), names, content, m) == content[m[0]..m[1]];
  }

  /** Two matches give the expansion against the first followed by the
      expansion against the second. */
  lemma TwoMatches(template: string, names: seq<string>, content: string, m1: seq<int>, m2: seq<int>)
    ensures ExpandAll(template, names, content, [m1, m2])
         == Expand(template, names, content, m1) + Expand(template, names, content, m2)
  {
    ExpandAllOne(template, names, content, [], m1);
    ExpandAllOne(template, names, content, [m1], m2);
    assert [] + [m1] == [m1] && [m1] + [m2] == [m1, m2];
  }

  /** formatMap's value for a key concatenates, in match order, the
      expansions against the first matches and against the rest. */
  lemma FormatSplitsAtMatch(templates: map<string, string>, re: Regexp, content: string, k: string, i: nat)
    requires k in templates && i <= |re.findAll(content)|
    ensures Format(templates, re, content)[k]
         == ExpandAll(templates[k], re.subexpNames, content, re.findAll(content)[..i])
          + ExpandAll(templates[k], re.subexpNames, content, re.findAll(content)[i..])
  {
    var ms := re.findAll(content);
    assert ms == ms[..i] + ms[i..];
    ExpandAllAppend(templates[k], re.subexpNames, content, ms[..i], ms[i..]);
  }
}
