/**
  The export lines of a payload, and how the shell reads them back: the quoting
  rules of sections 2.2.1 to 2.2.3 of the Shell Command Language (POSIX.1-2017, XCU).
 */
module ShellQuote {
  import opened Common

  // ---- Writing ----

  /** A single quote closes the quoted part, is double-quoted, and opens a new one. */
  function Escaped(v: string): string {
    if v == "" then ""
    else (if v[0] == '\'' then "'\"'\"'" else [v[0]]) + Escaped(v[1..])
  }

  function ExportLine(key: string, value: string): string {
    "export " + key + "=" + "'" + Escaped(value) + "'"
  }

  /** One line for each variable; the values may span lines themselves. */
  function Exports(env: seq<(string, string)>): string {
    if env == [] then ""
    else if |env| == 1 then ExportLine(env[0].0, env[0].1)
    else ExportLine(env[0].0, env[0].1) + "\n" + Exports(env[1..])
  }

  // ---- Reading ----

  datatype Mode = Unquoted | Single | Double

  /** Characters that end an unquoted word. */
  predicate EndsWord(c: char) {
    c in " \t\n;&|<>()"
  }

  /**
    Quote removal on the word at the start of s: its value and what follows.
    None for an unterminated quote, for NUL, and for the expansions that this
    reader does not know.
   */
  function ReadWord(s: string, mode: Mode): Option<(string, string)> {
    if s == "" then (if mode == Unquoted then Some(("", "")) else None)
    else
      var c := s[0];
      if c == '\0' then None
      else if mode == Single then
        if c == '\'' then ReadWord(s[1..], Unquoted) else Keep(c, ReadWord(s[1..], Single))
      else if mode == Double then
        if c == '"' then ReadWord(s[1..], Unquoted)
        else if c in "$`\\" then None
        else Keep(c, ReadWord(s[1..], Double))
      else if c == '\'' then ReadWord(s[1..], Single)
      else if c == '"' then ReadWord(s[1..], Double)
      else if EndsWord(c) then Some(("", s))
      else if c in "$`\\*?[~" then None
      else Keep(c, ReadWord(s[1..], Unquoted))
  }

  function Keep(c: char, r: Option<(string, string)>): Option<(string, string)> {
    var w :- r;
    Some(([c] + w.0, w.1))
  }

  predicate NameChar(c: char) {
    'A' <= c <= 'Z' || 'a' <= c <= 'z' || '0' <= c <= '9' || c == '_'
  }

  predicate IsName(key: string) {
    key != "" && !('0' <= key[0] <= '9') && forall i | 0 <= i < |key| :: NameChar(key[i])
  }

  /** The name at the start of s and what follows. */
  function ReadName(s: string): (string, string) {
    if s == "" || !NameChar(s[0]) then ("", s)
    else
      var (name, rest) := ReadName(s[1..]);
      ([s[0]] + name, rest)
  }

  /** Runs n export commands: the variables they set and what follows. */
  function ReadExports(s: string, n: nat): Option<(seq<(string, string)>, string)>
    decreases n
  {
    if n == 0 then Some(([], s))
    else if !("export " <= s) then None
    else
      var (name, rest) := ReadName(s[7..]);
      if !IsName(name) || !("=" <= rest) then None
      else
        var word :- ReadWord(rest[1..], Unquoted);
        if !("\n" <= word.1) then None
        else
          var later :- ReadExports(word.1[1..], n - 1);
          Some(([(name, word.0)] + later.0, later.1))
  }

  // ---- Round trip ----

  predicate NulFree(v: string) {
    forall i | 0 <= i < |v| :: v[i] != '\0'
  }

  lemma {:induction false} EscapedRead(v: string, rest: string)
    requires NulFree(v) && (rest == "" || EndsWord(rest[0])) && NulFree(rest[..Min(1, |rest|)])
    ensures ReadWord(Escaped(v) + "'" + rest, Single) == Some((v, rest))
  {
    var s := Escaped(v) + "'" + rest;
    if v == "" {
      assert s == "'" + rest && s[1..] == rest;
    } else {
      var tail := Escaped(v[1..]) + "'" + rest;
      EscapedRead(v[1..], rest);
      assert v == [v[0]] + v[1..];
      if v[0] == '\'' {
        assert s == "'\"'\"'" + tail;
        QuoteRead(tail);
      } else {
        assert s == [v[0]] + tail;
      }
    }
  }

  /** The five characters written for a single quote read as one. */
  lemma QuoteRead(tail: string)
    ensures ReadWord("'\"'\"'" + tail, Single) == Keep('\'', ReadWord(tail, Single))
  {
    var s1, s2, s3, s4 := "\"'\"'" + tail, "'\"'" + tail, "\"'" + tail, "'" + tail;
    assert ("'\"'\"'" + tail)[1..] == s1 && s1[1..] == s2 && s2[1..] == s3 && s3[1..] == s4 && s4[1..] == tail;
    assert ReadWord(s4, Unquoted) == ReadWord(tail, Single);
    assert ReadWord(s3, Double) == ReadWord(tail, Single);
    assert ReadWord(s2, Double) == Keep('\'', ReadWord(tail, Single));
    assert ReadWord(s1, Unquoted) == Keep('\'', ReadWord(tail, Single));
  }

  lemma {:induction false} NameRead(key: string, rest: string)
    requires forall i | 0 <= i < |key| :: NameChar(key[i])
    requires rest == "" || !NameChar(rest[0])
    ensures ReadName(key + rest) == (key, rest)
  {
    if key == "" {
      assert key + rest == rest;
    } else {
      assert (key + rest)[1..] == key[1..] + rest && key == [key[0]] + key[1..];
      NameRead(key[1..], rest);
    }
  }

  predicate NamesOk(env: seq<(string, string)>) {
    forall i | 0 <= i < |env| :: IsName(env[i].0)
  }

  predicate ValuesOk(env: seq<(string, string)>) {
    forall i | 0 <= i < |env| :: NulFree(env[i].1)
  }

  /** What follows the name on an export line. */
  function Quoted(value: string, rest: string): string {
    "'" + Escaped(value) + "'" + "\n" + rest
  }

  lemma QuotedRead(value: string, rest: string)
    requires NulFree(value)
    ensures ReadWord(Quoted(value, rest), Unquoted) == Some((value, "\n" + rest))
  {
    var word := Quoted(value, rest);
    assert word[0] == '\'' && word[1..] == Escaped(value) + "'" + ("\n" + rest);
    EscapedRead(value, "\n" + rest);
  }

  lemma LineStep(key: string, value: string, rest: string, n: nat)
    requires IsName(key) && NulFree(value)
    ensures var later := ReadExports(rest, n);
      ReadExports("export " + key + "=" + Quoted(value, rest), n + 1) ==
      if later.None? then None else Some(([(key, value)] + later.value.0, later.value.1))
  {
    var s, tail := "export " + key + "=" + Quoted(value, rest), "=" + Quoted(value, rest);
    assert s == "export " + (key + tail) && s[7..] == key + tail;
    NameRead(key, tail);
    assert tail[1..] == Quoted(value, rest);
    QuotedRead(value, rest);
    assert ("\n" + rest)[1..] == rest;
  }

  /** Every variable arrives with its value, and the script follows untouched. */
  lemma {:induction false} ExportsRead(env: seq<(string, string)>, script: string)
    requires NamesOk(env) && ValuesOk(env) && env != []
    ensures ReadExports(Exports(env) + "\n" + script, |env|) == Some((env, script))
  {
    var rest := if |env| == 1 then script else Exports(env[1..]) + "\n" + script;
    ExportsSplit(env, script, rest);
    LineStep(env[0].0, env[0].1, rest, |env| - 1);
    assert env == [(env[0].0, env[0].1)] + env[1..];
    if |env| > 1 {
      ExportsRead(env[1..], script);
    } else {
      assert env[1..] == [] && ReadExports(rest, 0) == Some(([], script));
    }
  }

  /** Whatever is read, the shell sets only variables whose names are identifiers. */
  lemma {:induction false} ReadNamesOk(s: string, n: nat)
    ensures ReadExports(s, n).Some? ==> NamesOk(ReadExports(s, n).value.0)
    decreases n
  {
    if n > 0 && "export " <= s {
      var (name, rest) := ReadName(s[7..]);
      if IsName(name) && "=" <= rest {
        var word := ReadWord(rest[1..], Unquoted);
        if word.Some? && "\n" <= word.value.1 { ReadNamesOk(word.value.1[1..], n - 1); }
      }
    }
  }

  /** The environment and the script arrive if and only if all names are identifiers. */
  lemma ExportsRoundTrip(env: seq<(string, string)>, script: string)
    requires ValuesOk(env) && env != []
    ensures ReadExports(Exports(env) + "\n" + script, |env|) == Some((env, script)) <==> NamesOk(env)
  {
    ReadNamesOk(Exports(env) + "\n" + script, |env|);
    if NamesOk(env) { ExportsRead(env, script); }
  }

  lemma ExportsSplit(env: seq<(string, string)>, script: string, rest: string)
    requires env != [] && rest == if |env| == 1 then script else Exports(env[1..]) + "\n" + script
    ensures Exports(env) + "\n" + script == "export " + env[0].0 + "=" + Quoted(env[0].1, rest)
  {
    Regroup("export " + env[0].0 + "=", "'", Escaped(env[0].1), "'", "\n", rest);
    if |env| > 1 { RegroupTail(ExportLine(env[0].0, env[0].1) + "\n", Exports(env[1..]), "\n", script); }
  }

  lemma Regroup(a: string, b: string, c: string, d: string, e: string, f: string)
    ensures a + b + c + d + e + f == a + (b + c + d + e + f)
  {
  }

  lemma RegroupTail(a: string, b: string, c: string, d: string)
    ensures a + b + c + d == a + (b + c + d)
  {
  }
}
