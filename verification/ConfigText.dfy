/**
  The text of a .config file: escaping of string values, the three forms of a
  line, and the splitting of a file into lines.
 */
module ConfigText {
  import opened Common

  const PREFIX := "CONFIG_"
  const UNSET_PREFIX := "# CONFIG_"
  const NOT_SET := " is not set"

  // ---- Strings in quotes ----

  function Replace(s: string, c: char, sub: string): string {
    if s == [] then [] else (if s[0] == c then sub else [s[0]]) + Replace(s[1..], c, sub)
  }

  /** Backslashes first, then quotes, as two passes over the string. */
  function Escape(s: string): string {
    Replace(Replace(s, '\\', "\\\\"), '"', "\\\"")
  }

  /** A backslash followed by any character but a line break stands for that character. */
  function Unescape(s: string): string {
    if s == [] then []
    else if s[0] == '\\' && |s| > 1 && s[1] != '\n' then [s[1]] + Unescape(s[2..])
    else [s[0]] + Unescape(s[1..])
  }

  /** How far plain characters and escape pairs reach from i. */
  function BodyEnd(s: string, i: nat): (j: nat)
    requires i <= |s|
    ensures i <= j <= |s|
    decreases |s| - i
  {
    if i == |s| then i
    else if s[i] != '\\' && s[i] != '"' then BodyEnd(s, i + 1)
    else if s[i] == '\\' && i + 1 < |s| && s[i + 1] != '\n' then BodyEnd(s, i + 2)
    else i
  }

  /** The contents of a string literal at the start of s. */
  function Literal(s: string): Option<string> {
    if |s| == 0 || s[0] != '"' then None
    else
      var j := BodyEnd(s, 1);
      if j < |s| && s[j] == '"' then Some(s[1..j]) else None
  }

  function Quoted(s: string): string {
    "\"" + Escape(s) + "\""
  }

  function EscapeChar(c: char): string {
    if c == '\\' then "\\\\" else if c == '"' then "\\\"" else [c]
  }

  lemma {:induction false} ReplaceConcat(a: string, b: string, c: char, sub: string)
    ensures Replace(a + b, c, sub) == Replace(a, c, sub) + Replace(b, c, sub)
  {
    if a == [] {
      assert a + b == b;
    } else {
      ReplaceConcat(a[1..], b, c, sub);
      assert (a + b)[1..] == a[1..] + b && (a + b)[0] == a[0];
      Regroup(if a[0] == c then sub else [a[0]], Replace(a[1..], c, sub), Replace(b, c, sub));
    }
  }

  lemma Regroup(x: string, y: string, z: string)
    ensures x + (y + z) == (x + y) + z
  {
  }

  /** The two passes amount to escaping character by character. */
  lemma EscapeCons(s: string)
    requires s != []
    ensures Escape(s) == EscapeChar(s[0]) + Escape(s[1..])
  {
    var head := if s[0] == '\\' then "\\\\" else [s[0]];
    ReplaceConcat(head, Replace(s[1..], '\\', "\\\\"), '"', "\\\"");
    if s[0] == '\\' {
      assert Replace("\\\\", '"', "\\\"") == "\\\\" by {
        assert "\\\\"[1..] == "\\";
        assert "\\"[1..] == "";
      }
    } else {
      assert Replace([s[0]], '"', "\\\"") == EscapeChar(s[0]) by {
        assert [s[0]][1..] == "";
      }
    }
  }

  lemma {:induction false} UnescapeEscape(s: string)
    ensures Unescape(Escape(s)) == s
  {
    if s != [] {
      EscapeCons(s);
      UnescapeEscape(s[1..]);
      var e := EscapeChar(s[0]);
      assert Escape(s)[|e|..] == Escape(s[1..]);
    }
  }

  lemma {:induction false} EscapedBody(before: string, s: string, after: string)
    requires after != [] && after[0] == '"'
    ensures BodyEnd(before + Escape(s) + after, |before|) == |before| + |Escape(s)|
    decreases |s|
  {
    var t := before + Escape(s) + after;
    if s == [] {
      assert t[|before|] == '"';
    } else {
      EscapeCons(s);
      var e := EscapeChar(s[0]);
      EscapedBody(before + e, s[1..], after);
      assert t == before + e + Escape(s[1..]) + after;
      assert t[|before|] == e[0];
      if |e| == 2 { assert t[|before| + 1] == e[1]; }
    }
  }

  /** Reading back a written string literal gives the string. */
  lemma QuotedRoundTrip(s: string)
    ensures Literal(Quoted(s)).Some? && Unescape(Literal(Quoted(s)).value) == s
  {
    EscapedBody("\"", s, "\"");
    assert Quoted(s)[1..1 + |Escape(s)|] == Escape(s);
    UnescapeEscape(s);
  }

  // ---- Lines ----

  /** What rstrip() removes. */
  predicate IsSpace(c: char) {
    || c == ' ' || '\t' <= c <= '\r' || '\U{1C}' <= c <= '\U{1F}' || c == '\U{85}' || c == '\U{A0}'
    || c == '\U{1680}' || '\U{2000}' <= c <= '\U{200A}' || c == '\U{2028}' || c == '\U{2029}'
    || c == '\U{202F}' || c == '\U{205F}' || c == '\U{3000}'
  }

  predicate IsBreak(c: char) {
    c == '\n' || c == '\r'
  }

  function RStrip(s: string): string {
    if s != [] && IsSpace(s[|s| - 1]) then RStrip(s[..|s| - 1]) else s
  }

  function IndexOf(s: string, c: char, i: nat): (j: nat)
    requires i <= |s|
    ensures i <= j <= |s| && (j < |s| ==> s[j] == c) && forall n | i <= n < j :: s[n] != c
    decreases |s| - i
  {
    if i == |s| || s[i] == c then i else IndexOf(s, c, i + 1)
  }

  datatype Line = Set(name: string, val: string) | Unset(name: string) | Other

  /** One line of a file, without its line break. */
  function ParseLine(raw: string): Line {
    var line := RStrip(raw);
    if PREFIX <= line then
      var j := IndexOf(line, '=', |PREFIX|);
      if |PREFIX| < j < |line| then Set(line[|PREFIX|..j], line[j + 1..IndexOf(line, '\n', j + 1)]) else Other
    else if UNSET_PREFIX <= line then
      var j := IndexOf(line, ' ', |UNSET_PREFIX|);
      if |UNSET_PREFIX| < j && NOT_SET <= line[j..] then Unset(line[|UNSET_PREFIX|..j]) else Other
    else Other
  }

  function SetLine(name: string, val: string): string {
    PREFIX + name + "=" + val
  }

  function UnsetLine(name: string): string {
    UNSET_PREFIX + name + NOT_SET
  }

  predicate GoodName(name: string) {
    name != [] && forall i | 0 <= i < |name| :: name[i] != '=' && !IsSpace(name[i])
  }

  /** No line breaks, and no white space at the end. */
  predicate GoodValue(val: string) {
    (forall i | 0 <= i < |val| :: !IsBreak(val[i])) && (val != [] ==> !IsSpace(val[|val| - 1]))
  }

  lemma SetLineParts(line: string, name: string, val: string, j: nat)
    requires line == SetLine(name, val) && j == |PREFIX| + |name|
    ensures j < |line| && line[j] == '=' && line[|PREFIX|..j] == name && line[j + 1..] == val && PREFIX <= line
    ensures forall n | |PREFIX| <= n < j :: line[n] == name[n - |PREFIX|]
    ensures line[|line| - 1] == if val == [] then '=' else val[|val| - 1]
  {
    assert forall n | |PREFIX| <= n < j :: line[n] == name[n - |PREFIX|];
    assert forall n | j + 1 <= n < |line| :: line[n] == val[n - j - 1];
  }

  lemma ParseSetLine(name: string, val: string)
    requires GoodName(name) && GoodValue(val)
    ensures ParseLine(SetLine(name, val)) == Set(name, val)
  {
    SetLineParts(SetLine(name, val), name, val, |PREFIX| + |name|);
  }

  lemma ParseUnsetLine(name: string)
    requires GoodName(name)
    ensures ParseLine(UnsetLine(name)) == Unset(name)
  {
    var line := UnsetLine(name);
    assert line[|line| - 1] == NOT_SET[|NOT_SET| - 1] == 't';
    assert RStrip(line) == line;
    assert line[0] == '#' && !(PREFIX <= line);
    var j := |UNSET_PREFIX| + |name|;
    assert line[j] == NOT_SET[0] == ' ';
    assert forall n | |UNSET_PREFIX| <= n < j :: line[n] == name[n - |UNSET_PREFIX|];
    assert line[j..] == NOT_SET;
    assert line[|UNSET_PREFIX|..j] == name;
  }

  // ---- Files ----

  predicate NoBreak(s: string) {
    forall i | 0 <= i < |s| :: !IsBreak(s[i])
  }

  function FirstBreak(s: string): (j: nat)
    ensures j <= |s| && NoBreak(s[..j]) && (j < |s| ==> IsBreak(s[j]))
  {
    if s == [] || IsBreak(s[0]) then 0
    else
      var j := FirstBreak(s[1..]);
      assert s[..j + 1] == [s[0]] + s[1..][..j];
      j + 1
  }

  /** The lines of a text; every line break character ends a line. */
  function Lines(text: string): seq<string> {
    var j := FirstBreak(text);
    if j == |text| then [text] else [text[..j]] + Lines(text[j + 1..])
  }

  lemma LinesCons(line: string, rest: string)
    requires NoBreak(line)
    ensures Lines(line + "\n" + rest) == [line] + Lines(rest)
  {
    var text := line + "\n" + rest;
    var j := FirstBreak(text);
    assert text[|line|] == '\n';
    assert forall n | 0 <= n < |line| :: text[n] == line[n];
    assert forall n | 0 <= n < j :: text[n] == text[..j][n];
    assert text[..j] == line;
    assert text[j + 1..] == rest;
  }
}
