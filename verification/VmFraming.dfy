/**
  Commands from the host to the build VM: the host cuts the encoded payload into
  lines, and the agent in the VM puts it together again in a file per token,
  whatever files earlier commands left behind.  Strings stand for their bytes.

  The token of a command becomes part of lines, of a shell pattern and of a file
  name.  GoodToken says which tokens survive all three.
 */
module VmFraming {
  import opened Common
  import Base64
  import ShellQuote

  // ---- The host ----

  const ChunkSize: nat := 60000

  function Chunk(encoded: string, i: nat): string
    requires i <= |encoded|
  {
    encoded[i..if i + ChunkSize <= |encoded| then i + ChunkSize else |encoded|]
  }

  /** The data lines from position i on. */
  function DataLines(token: string, encoded: string, i: nat): string
    decreases |encoded| - i
  {
    if i >= |encoded| then ""
    else "RUNB64_DATA " + token + " " + Chunk(encoded, i) + "\n" + DataLines(token, encoded, i + ChunkSize)
  }

  predicate Ascii(token: string) {
    forall i | 0 <= i < |token| :: token[i] as int < 128
  }

  function Command(token: string, encoded: string): string {
    "RUNB64_BEGIN " + token + "\n" + (DataLines(token, encoded, 0) + ("RUNB64_END " + token + "\n"))
  }

  /** What reaches the agent: a token outside ASCII cannot be sent, and the host fails after its greeting. */
  function Sent(token: string, encoded: string): string {
    "PING" + "\n" + (if Ascii(token) then Command(token, encoded) else "")
  }

  method SendPayload(token: string, encoded: string) returns (sent: string, raised: bool)
    ensures sent == Sent(token, encoded) && (raised <==> !Ascii(token))
  {
    sent, raised := "PING" + "\n", !Ascii(token);
    if raised { return; }
    var begin := "RUNB64_BEGIN " + token + "\n";
    var data := SendData(token, encoded);
    var end := "RUNB64_END " + token + "\n";
    ghost var greeting := sent;
    sent := sent + begin;
    sent := sent + data;
    sent := sent + end;
    Regroup(greeting + begin, data, end);
    Regroup(greeting, begin, data + end);
  }

  method SendData(token: string, encoded: string) returns (sent: string)
    ensures sent == DataLines(token, encoded, 0)
  {
    sent := "";
    var i := 0;
    while i < |encoded|
      invariant sent + DataLines(token, encoded, i) == DataLines(token, encoded, 0)
      decreases |encoded| - i
    {
      var line := "RUNB64_DATA " + token + " " + Chunk(encoded, i) + "\n";
      Regroup(sent, line, DataLines(token, encoded, i + ChunkSize));
      sent := sent + line;
      i := i + ChunkSize;
    }
  }

  lemma Regroup(a: string, b: string, c: string)
    ensures a + (b + c) == (a + b) + c
  {
  }

  // ---- Parameter expansions of the agent ----

  /** The read builtin drops NUL. */
  function DropNul(s: string): string {
    if s == "" then "" else (if s[0] == '\0' then "" else [s[0]]) + DropNul(s[1..])
  }

  /** ${line%cr} */
  function StripCr(line: string): string {
    if line != "" && line[|line| - 1] == '\r' then line[..|line| - 1] else line
  }

  /** ${rest%% *}: everything before the first space. */
  function UpToSpace(s: string): string {
    if s == "" || s[0] == ' ' then "" else [s[0]] + UpToSpace(s[1..])
  }

  /** What the locale decides: whether a character matches the bracket expression with the given inside. */
  datatype Shell = Shell(inBrackets: (string, char) -> bool)

  /** The first "c]" in p from i on. */
  function ClassEnd(p: string, c: char, i: nat): Option<nat>
    decreases |p| - i
  {
    if i + 1 >= |p| then None
    else if p[i] == c && p[i + 1] == ']' then Some(i)
    else ClassEnd(p, c, i + 1)
  }

  /** The bracket that closes the bracket expression at the start of p, searched from i on. */
  function CloseFrom(p: string, i: nat): Option<nat>
    ensures CloseFrom(p, i).Some? ==> i <= CloseFrom(p, i).value < |p|
    decreases |p| - i
  {
    if i >= |p| then None
    else if p[i] == ']' then Some(i)
    else if p[i] == '\\' then CloseFrom(p, i + 2)
    else if p[i] == '[' && i + 1 < |p| && p[i + 1] in ":=." && ClassEnd(p, p[i + 1], i + 2).Some? then
      ClassEndAfter(p, p[i + 1], i + 2);
      CloseFrom(p, ClassEnd(p, p[i + 1], i + 2).value + 2)
    else CloseFrom(p, i + 1)
  }

  lemma {:induction false} ClassEndAfter(p: string, c: char, i: nat)
    ensures ClassEnd(p, c, i).Some? ==> i <= ClassEnd(p, c, i).value < |p|
    decreases |p| - i
  {
    if i + 1 < |p| { ClassEndAfter(p, c, i + 1); }
  }

  /** A bracket right behind the opening, or behind a negation, does not close it. */
  function CloseAt(p: string): Option<nat> {
    var start := if |p| > 1 && p[1] in "!^" then 2 else 1;
    if start < |p| && p[start] == ']' then CloseFrom(p, start + 1) else CloseFrom(p, start)
  }

  /** Pattern matching: `*`, `?`, bracket expressions and backslashes; an unclosed bracket stands for itself. */
  predicate Glob(sh: Shell, p: string, s: string)
    decreases |p| + |s|
  {
    if p == "" then s == ""
    else if p[0] == '*' then Glob(sh, p[1..], s) || (s != "" && Glob(sh, p, s[1..]))
    else if s == "" then false
    else if p[0] == '?' then Glob(sh, p[1..], s[1..])
    else if p[0] == '\\' && |p| > 1 then p[1] == s[0] && Glob(sh, p[2..], s[1..])
    else if p[0] == '[' && CloseAt(p).Some? then
      sh.inBrackets(p[1..CloseAt(p).value], s[0]) && Glob(sh, p[CloseAt(p).value + 1..], s[1..])
    else p[0] == s[0] && Glob(sh, p[1..], s[1..])
  }

  /** ${s#p}: s without its shortest prefix of length n or more that matches p. */
  function StripShortest(sh: Shell, p: string, s: string, n: nat): string
    requires n <= |s|
    decreases |s| - n
  {
    if Glob(sh, p, s[..n]) then s[n..] else if n == |s| then s else StripShortest(sh, p, s, n + 1)
  }

  // ---- The agent ----

  datatype Event = Said(line: string) | Ran(token: string, script: string)

  /** The payload files by token; there are no directories with such names. */
  datatype Guest = Guest(files: map<string, string>, alive: bool, events: seq<Event>)

  /** A file name has at most 255 bytes, 11 of which are not from the token. */
  const NameSpace: nat := 244

  predicate IsFileName(token: string) {
    '/' !in token && |token| <= NameSpace
  }

  function FileOf(g: Guest, token: string): string {
    if token in g.files then g.files[token] else ""
  }

  /** One turn of the read loop; the first command that fails ends the agent. */
  function Step(sh: Shell, g: Guest, raw: string): Guest {
    if g.alive then Obeyed(sh, g, StripCr(DropNul(raw))) else g
  }

  function Obeyed(sh: Shell, g: Guest, line: string): Guest {
    if "RUNB64_BEGIN " <= line then
      var token := line[13..];
      if '/' !in token && !IsFileName(token) then g.(alive := false) else g.(files := g.files - {token})
    else if "RUNB64_DATA " <= line then
      var rest := line[12..];
      var token := UpToSpace(rest);
      var payload := StripShortest(sh, token + " ", rest, 0);
      if IsFileName(token) then g.(files := g.files[token := FileOf(g, token) + payload]) else g.(alive := false)
    else if "RUNB64_END " <= line then
      var token := line[11..];
      var script := if IsFileName(token) && token in g.files then Base64.Decode(g.files[token]) else None;
      if script.None? then g.(alive := false)
      else g.(files := g.files - {token}, events := g.events + [Ran(token, script.value)])
    else if line == "PING" then g.(events := g.events + [Said("READY")])
    else if line == "POWEROFF" then g.(events := g.events + [Said("BYE")])
    else g.(events := g.events + [Said("ERR unknown command")])
  }

  function NewlineAt(s: string): (i: nat)
    ensures i <= |s| && (i < |s| ==> s[i] == '\n') && forall j | 0 <= j < i :: s[j] != '\n'
  {
    if s == "" || s[0] == '\n' then 0 else 1 + NewlineAt(s[1..])
  }

  /** The read loop over all complete lines. */
  function Serve(sh: Shell, g: Guest, stream: string): Guest
    decreases |stream|
  {
    var i := NewlineAt(stream);
    if i == |stream| then g else Serve(sh, Step(sh, g, stream[..i]), stream[i + 1..])
  }

  class Agent {
    const sh: Shell
    var files: map<string, string>
    var alive: bool
    var events: seq<Event>

    ghost function Now(): Guest
      reads this
    {
      Guest(files, alive, events)
    }

    /** An agent starts with whatever files are there. */
    constructor (sh: Shell, stale: map<string, string>)
      ensures this.sh == sh && Now() == Guest(stale, true, [])
    {
      this.sh, files, alive, events := sh, stale, true, [];
    }

    method HandleLine(raw: string)
      requires alive
      modifies this
      ensures Now() == Step(sh, old(Now()), raw)
    {
      var line := StripCr(DropNul(raw));
      if "RUNB64_BEGIN " <= line {
        var token := line[13..];
        if '/' !in token && !IsFileName(token) {
          alive := false;
        } else {
          files := files - {token};
        }
      } else if "RUNB64_DATA " <= line {
        var rest := line[12..];
        var token := UpToSpace(rest);
        var payload := StripShortest(sh, token + " ", rest, 0);
        if IsFileName(token) {
          var before := if token in files then files[token] else "";
          files := files[token := before + payload];
        } else {
          alive := false;
        }
      } else if "RUNB64_END " <= line {
        RunEncoded(line[11..]);
      } else if line == "PING" {
        events := events + [Said("READY")];
      } else if line == "POWEROFF" {
        events := events + [Said("BYE")];
      } else {
        events := events + [Said("ERR unknown command")];
      }
    }

    method RunEncoded(token: string)
      modifies this
      ensures var script := if IsFileName(token) && token in old(files) then Base64.Decode(old(files)[token]) else None;
        Now() == if script.None? then old(Now()).(alive := false)
                 else old(Now()).(files := old(files) - {token}, events := old(events) + [Ran(token, script.value)])
    {
      if !IsFileName(token) || token !in files {
        alive := false;
        return;
      }
      var script := Base64.Decode(files[token]);
      if script.None? {
        alive := false;
        return;
      }
      files := files - {token};
      events := events + [Ran(token, script.value)];
    }

    method Loop(stream: string)
      modifies this
      ensures Now() == Serve(sh, old(Now()), stream)
    {
      var rest := stream;
      ghost var target := Serve(sh, Now(), stream);
      while alive && NewlineAt(rest) < |rest|
        invariant Serve(sh, Now(), rest) == target
        decreases |rest|
      {
        var i := NewlineAt(rest);
        ghost var now := Now();
        HandleLine(rest[..i]);
        ServeNext(sh, now, rest, Now(), i);
        rest := rest[i + 1..];
      }
      if alive { ServeOver(sh, Now(), rest); } else { DeadStays(sh, Now(), rest); }
    }
  }

  lemma {:induction false} DeadStays(sh: Shell, g: Guest, stream: string)
    requires !g.alive
    ensures Serve(sh, g, stream) == g
    decreases |stream|
  {
    var i := NewlineAt(stream);
    if i < |stream| { DeadStays(sh, g, stream[i + 1..]); }
  }

  lemma ServeNext(sh: Shell, g: Guest, stream: string, g': Guest, i: nat)
    requires i == NewlineAt(stream) < |stream| && g' == Step(sh, g, stream[..i])
    ensures Serve(sh, g, stream) == Serve(sh, g', stream[i + 1..])
  {
  }

  lemma ServeOver(sh: Shell, g: Guest, stream: string)
    requires NewlineAt(stream) == |stream|
    ensures Serve(sh, g, stream) == g
  {
  }

  // ---- One line at a time ----

  predicate OneLine(s: string) {
    '\n' !in s && '\0' !in s
  }

  lemma ServeLine(sh: Shell, g: Guest, line: string, rest: string)
    requires OneLine(line)
    ensures Serve(sh, g, line + "\n" + rest) == Serve(sh, Step(sh, g, line), rest)
  {
    var stream := line + "\n" + rest;
    var i := NewlineAt(stream);
    assert stream[|line|] == '\n';
    assert forall j | 0 <= j < |line| :: stream[j] == line[j] && line[j] in line;
    assert stream[..i] == line && stream[i + 1..] == rest;
  }

  lemma {:induction false} DropNulSame(s: string)
    requires '\0' !in s
    ensures DropNul(s) == s
  {
    if s != "" {
      assert s == [s[0]] + s[1..];
      DropNulSame(s[1..]);
    }
  }

  lemma {:induction false} UpToSpaceIs(token: string, rest: string)
    requires ' ' !in token
    ensures UpToSpace(token + " " + rest) == token
  {
    var s := token + " " + rest;
    if token == "" {
      assert s[0] == ' ';
    } else {
      assert s[0] == token[0] && s[1..] == token[1..] + " " + rest;
      UpToSpaceIs(token[1..], rest);
      assert token == [token[0]] + token[1..];
    }
  }

  lemma {:induction false} UpToSpaceNone(s: string)
    ensures ' ' !in UpToSpace(s)
  {
    if s != "" { UpToSpaceNone(s[1..]); }
  }

  lemma StripCrOnce(line: string)
    ensures StripCr(line + "\r") == line
    ensures (line == "" || line[|line| - 1] != '\r') ==> StripCr(line) == line
  {
    assert (line + "\r")[|line|] == '\r' && (line + "\r")[..|line|] == line;
  }

  /** A line may end in a carriage return. */
  lemma LineEnds(sh: Shell, g: Guest, line: string)
    requires '\0' !in line && (line == "" || line[|line| - 1] != '\r')
    ensures Step(sh, g, line + "\r") == Step(sh, g, line)
  {
    StripCrOnce(line);
    DropNulSame(line);
    DropNulSame(line + "\r");
  }

  /** NUL characters do not count. */
  lemma {:induction false} DropNulDrops(a: string, b: string)
    ensures DropNul(a + "\0" + b) == DropNul(a + b)
  {
    if a == "" {
      assert "" + "\0" + b == "\0" + b && ("\0" + b)[1..] == b && "" + b == b;
    } else {
      assert (a + "\0" + b)[1..] == a[1..] + "\0" + b && (a + b)[1..] == a[1..] + b;
      DropNulDrops(a[1..], b);
    }
  }

  // ---- Patterns ----

  predicate Literally(p: string) {
    forall i | 0 <= i < |p| :: p[i] !in "*?[\\"
  }

  /** Without special characters a pattern matches itself only. */
  lemma {:induction false} GlobLiteral(sh: Shell, p: string, s: string)
    requires Literally(p)
    ensures Glob(sh, p, s) <==> p == s
  {
    if p != "" && s != "" {
      GlobLiteral(sh, p[1..], s[1..]);
      assert p == [p[0]] + p[1..] && s == [s[0]] + s[1..];
    }
  }

  /** `*` matches any prefix. */
  lemma {:induction false} GlobStar(sh: Shell, p: string, s: string)
    ensures Glob(sh, "*" + p, s) <==> exists n | 0 <= n <= |s| :: Glob(sh, p, s[n..])
    decreases |s|
  {
    assert ("*" + p)[1..] == p && s[0..] == s;
    if s != "" {
      GlobStar(sh, p, s[1..]);
      forall n | 0 <= n < |s| ensures s[1..][n..] == s[n + 1..] {}
      if n :| 1 <= n <= |s| && Glob(sh, p, s[n..]) { assert s[1..][n - 1..] == s[n..]; }
    }
  }

  /** `?` matches any character, and a backslash the one that follows it. */
  lemma GlobSingle(sh: Shell, p: string, c: char, s: string)
    ensures Glob(sh, "?" + p, s) <==> s != "" && Glob(sh, p, s[1..])
    ensures Glob(sh, "\\" + [c] + p, s) <==> s != "" && s[0] == c && Glob(sh, p, s[1..])
  {
    assert ("?" + p)[1..] == p;
    var q := "\\" + [c] + p;
    assert q[0] == '\\' && q[1] == c && q[2..] == p;
  }

  // ---- The token as a pattern ----

  lemma {:induction false} ClassEndSpace(p: string, c: char, i: nat)
    requires c in ":=."
    ensures ClassEnd(p + " ", c, i) == ClassEnd(p, c, i)
    decreases |p| - i
  {
    if i + 1 < |p| + 1 { ClassEndSpace(p, c, i + 1); }
  }

  /** A space at the end closes nothing. */
  lemma {:induction false} CloseFromSpace(p: string, i: nat)
    ensures CloseFrom(p + " ", i) == CloseFrom(p, i)
    decreases |p| + 2 - i
  {
    var q := p + " ";
    if i < |p| {
      assert q[i] == p[i];
      if p[i] == '\\' {
        CloseFromSpace(p, i + 2);
      } else if p[i] != ']' {
        CloseFromSpace(p, i + 1);
        if p[i] == '[' && i + 1 < |p| && p[i + 1] in ":=." {
          ClassEndSpace(p, p[i + 1], i + 2);
          ClassEndAfter(p, p[i + 1], i + 2);
          if ClassEnd(p, p[i + 1], i + 2).Some? { CloseFromSpace(p, ClassEnd(p, p[i + 1], i + 2).value + 2); }
        }
      }
    } else if i == |p| {
      assert q[i] == ' ' && CloseFrom(q, i + 1) == None;
    }
  }

  lemma CloseAtSpace(p: string)
    requires p != ""
    ensures CloseAt(p + " ") == CloseAt(p)
  {
    forall i: nat ensures CloseFrom(p + " ", i) == CloseFrom(p, i) { CloseFromSpace(p, i); }
    assert forall i | 0 <= i < |p| :: (p + " ")[i] == p[i];
    assert (p + " ")[|p|] == ' ';
  }

  /** What matches a pattern that ends in a space ends in a space. */
  lemma {:induction false} GlobSpace(sh: Shell, p: string, s: string)
    requires Glob(sh, p + " ", s)
    ensures s != "" && s[|s| - 1] == ' '
    decreases |p| + |s|
  {
    var q := p + " ";
    if p == "" {
      assert q == " " && s[1..] == "";
    } else {
      assert q[1..] == p[1..] + " " && q[0] == p[0];
      CloseAtSpace(p);
      if p[0] == '*' {
        if Glob(sh, q[1..], s) { GlobSpace(sh, p[1..], s); } else { GlobSpace(sh, p, s[1..]); }
      } else if p[0] == '\\' && |p| > 1 {
        assert q[2..] == p[2..] + " ";
        GlobSpace(sh, p[2..], s[1..]);
      } else if p[0] == '\\' {
        assert q[2..] == "" && s[1..] == "";
      } else if p[0] == '[' && CloseAt(p).Some? {
        var e := CloseAt(p).value;
        assert q[e + 1..] == p[e + 1..] + " ";
        GlobSpace(sh, p[e + 1..], s[1..]);
      } else {
        GlobSpace(sh, p[1..], s[1..]);
      }
    }
  }

  /** The pattern that cuts the token off matches the token. */
  predicate MatchesItself(sh: Shell, token: string) {
    Glob(sh, token + " ", token + " ")
  }

  lemma {:induction false} PlainMatchesItself(sh: Shell, p: string)
    requires '[' !in p && '\\' !in p
    ensures Glob(sh, p, p)
  {
    if p != "" {
      assert p == [p[0]] + p[1..];
      PlainMatchesItself(sh, p[1..]);
      if p[0] == '*' { assert Glob(sh, p[1..], p[1..]) ==> Glob(sh, p, p[1..]); }
    }
  }

  /** Tokens without brackets and backslashes match themselves. */
  lemma PlainTokens(sh: Shell, token: string)
    requires '[' !in token && '\\' !in token
    ensures MatchesItself(sh, token)
  {
    PlainMatchesItself(sh, token + " ");
  }

  /** The token is cut off in front of the payload exactly if it matches itself as a pattern; otherwise nothing is. */
  lemma {:induction false} StripToken(sh: Shell, token: string, payload: string, n: nat)
    requires ' ' !in token && ' ' !in payload
    requires n <= |token| + 1 || (n <= |token| + 1 + |payload| && !MatchesItself(sh, token))
    ensures n <= |token + " " + payload|
    ensures StripShortest(sh, token + " ", token + " " + payload, n) ==
            if MatchesItself(sh, token) then payload else token + " " + payload
    decreases |token| + 1 + |payload| - n
  {
    var s := token + " " + payload;
    assert forall j | 0 <= j < |token| :: s[j] == token[j] && token[j] in token;
    assert forall j | |token| < j < |s| :: s[j] == payload[j - |token| - 1] && payload[j - |token| - 1] in payload;
    if n == |token| + 1 { assert s[..n] == token + " " && s[n..] == payload; }
    if n != |token| + 1 && Glob(sh, token + " ", s[..n]) { GlobSpace(sh, token, s[..n]); }
    if n < |s| && !(n == |token| + 1 && MatchesItself(sh, token)) { StripToken(sh, token, payload, n + 1); }
  }

  // ---- The steps of a command ----

  function Appended(g: Guest, token: string, more: string): Guest {
    g.(files := g.files[token := FileOf(g, token) + more])
  }

  lemma AppendedTwice(g: Guest, token: string, a: string, b: string)
    ensures Appended(Appended(g, token, a), token, b) == Appended(g, token, a + b)
  {
    assert FileOf(g, token) + a + b == FileOf(g, token) + (a + b);
    assert g.files[token := FileOf(g, token) + a][token := FileOf(g, token) + (a + b)] == g.files[token := FileOf(g, token) + (a + b)];
  }

  function DataLine(token: string, chunk: string): string {
    "RUNB64_DATA " + token + " " + chunk
  }

  lemma DataLineParts(token: string, chunk: string)
    requires OneLine(token) && Base64.Solid(chunk) && chunk != ""
    ensures var line := DataLine(token, chunk);
      OneLine(line) && StripCr(line) == line && "RUNB64_DATA " <= line && line[12..] == token + " " + chunk
  {
    var line := DataLine(token, chunk);
    var rest := token + " " + chunk;
    assert line == "RUNB64_DATA " + rest;
    assert line[|line| - 1] == chunk[|chunk| - 1];
    SolidOneLine(chunk);
    OneLineJoin("RUNB64_DATA ", token);
    OneLineJoin("RUNB64_DATA " + token, " ");
    OneLineJoin("RUNB64_DATA " + token + " ", chunk);
  }

  /** A data line appends what is left of it to the file of the name in front of its first space. */
  lemma DataStep(sh: Shell, g: Guest, line: string, rest: string, name: string)
    requires g.alive && OneLine(line) && StripCr(line) == line && "RUNB64_DATA " <= line
    requires rest == line[12..] && name == UpToSpace(rest)
    ensures Step(sh, g, line) ==
      if IsFileName(name) then Appended(g, name, StripShortest(sh, name + " ", rest, 0)) else g.(alive := false)
  {
    DropNulSame(line);
    assert line[7] == 'D';
  }

  lemma SolidOneLine(s: string)
    requires Base64.Solid(s)
    ensures OneLine(s) && ' ' !in s
  {
  }

  lemma OneLineJoin(a: string, b: string)
    requires OneLine(a) && OneLine(b)
    ensures OneLine(a + b)
  {
  }

  lemma StripCrJoin(head: string, token: string)
    requires head != "" && head[|head| - 1] == ' '
    ensures StripCr(head + token) == head + StripCr(token)
  {
    if token != "" { assert (head + token)[|head + token| - 1] == token[|token| - 1]; } else { assert head + token == head; }
  }

  lemma BeginStep(sh: Shell, g: Guest, token: string, name: string)
    requires g.alive && OneLine(token) && name == StripCr(token)
    ensures OneLine("RUNB64_BEGIN " + token)
    ensures Step(sh, g, "RUNB64_BEGIN " + token) ==
      if '/' !in name && !IsFileName(name) then g.(alive := false) else g.(files := g.files - {name})
  {
    OneLineJoin("RUNB64_BEGIN ", token);
    DropNulSame("RUNB64_BEGIN " + token);
    StripCrJoin("RUNB64_BEGIN ", token);
    var line := "RUNB64_BEGIN " + name;
    assert line[..13] == "RUNB64_BEGIN " && line[13..] == name;
  }

  lemma EndStep(sh: Shell, g: Guest, token: string, name: string)
    requires g.alive && OneLine(token) && name == StripCr(token)
    ensures var script := if IsFileName(name) && name in g.files then Base64.Decode(g.files[name]) else None;
      Step(sh, g, "RUNB64_END " + token) ==
      if script.None? then g.(alive := false)
      else g.(files := g.files - {name}, events := g.events + [Ran(name, script.value)])
  {
    OneLineJoin("RUNB64_END ", token);
    DropNulSame("RUNB64_END " + token);
    StripCrJoin("RUNB64_END ", token);
    var line := "RUNB64_END " + name;
    assert line[..11] == "RUNB64_END " && line[11..] == name && line[7] == 'E';
  }

  // ---- All data lines ----

  lemma DataLineSplit(token: string, encoded: string, i: nat, rest: string)
    requires i < |encoded| && Base64.Solid(encoded)
    ensures Base64.Solid(Chunk(encoded, i)) && Chunk(encoded, i) != ""
    ensures DataLines(token, encoded, i) + rest ==
            DataLine(token, Chunk(encoded, i)) + "\n" + (DataLines(token, encoded, i + ChunkSize) + rest)
  {
    var chunk := Chunk(encoded, i);
    assert forall j | 0 <= j < |chunk| :: chunk[j] == encoded[i + j];
    Regroup(DataLine(token, chunk) + "\n", DataLines(token, encoded, i + ChunkSize), rest);
  }

  lemma ChunkSplit(token: string, encoded: string, i: nat, rest: string)
    requires i < |encoded|
    ensures if i + ChunkSize < |encoded| then Chunk(encoded, i) + encoded[i + ChunkSize..] == encoded[i..]
            else Chunk(encoded, i) == encoded[i..] && DataLines(token, encoded, i + ChunkSize) + rest == rest
  {
    if i + ChunkSize >= |encoded| { assert DataLines(token, encoded, i + ChunkSize) == ""; }
  }

  /** The tokens that survive as a line, as a word, as a pattern and as a file name. */
  predicate GoodToken(sh: Shell, token: string) {
    Ascii(token) && OneLine(token) && ' ' !in token && StripCr(token) == token && IsFileName(token) && MatchesItself(sh, token)
  }

  lemma GoodDataStep(sh: Shell, g: Guest, token: string, chunk: string)
    requires g.alive && GoodToken(sh, token) && Base64.Solid(chunk) && chunk != ""
    ensures OneLine(DataLine(token, chunk))
    ensures Step(sh, g, DataLine(token, chunk)) == Appended(g, token, chunk)
  {
    DataLineParts(token, chunk);
    UpToSpaceIs(token, chunk);
    DataStep(sh, g, DataLine(token, chunk), token + " " + chunk, token);
    SolidOneLine(chunk);
    StripToken(sh, token, chunk, 0);
  }

  /** The chunks from position i on end up behind what the file of the token holds already. */
  lemma {:induction false} DataServed(sh: Shell, g: Guest, token: string, encoded: string, i: nat, rest: string)
    requires g.alive && GoodToken(sh, token) && Base64.Solid(encoded) && i < |encoded|
    ensures Serve(sh, g, DataLines(token, encoded, i) + rest) == Serve(sh, Appended(g, token, encoded[i..]), rest)
    decreases |encoded| - i
  {
    var chunk := Chunk(encoded, i);
    DataLineSplit(token, encoded, i, rest);
    GoodDataStep(sh, g, token, chunk);
    ServeLine(sh, g, DataLine(token, chunk), DataLines(token, encoded, i + ChunkSize) + rest);
    ChunkSplit(token, encoded, i, rest);
    if i + ChunkSize < |encoded| {
      DataServed(sh, Appended(g, token, chunk), token, encoded, i + ChunkSize, rest);
      AppendedTwice(g, token, chunk, encoded[i + ChunkSize..]);
    }
  }

  // ---- A command with another token ----

  /** The end of a command with this name will find no file, or none that decodes. */
  predicate Doomed(g: Guest, name: string) {
    !g.alive || name !in g.files || ' ' in g.files[name]
  }

  /** A data line whose token is not good leaves the command doomed. */
  lemma DoomedStep(sh: Shell, g: Guest, token: string, chunk: string)
    requires Ascii(token) && OneLine(token) && !GoodToken(sh, token) && Doomed(g, StripCr(token))
    requires Base64.Solid(chunk) && chunk != ""
    ensures Doomed(Step(sh, g, DataLine(token, chunk)), StripCr(token))
  {
    if g.alive {
      DataLineParts(token, chunk);
      DataStep(sh, g, DataLine(token, chunk), token + " " + chunk, UpToSpace(token + " " + chunk));
      UpToSpaceNone(token + " " + chunk);
      if ' ' !in token {
        UpToSpaceIs(token, chunk);
        SolidOneLine(chunk);
        StripToken(sh, token, chunk, 0);
        assert (token + " " + chunk)[|token|] == ' ';
      } else {
        KeepsSpace(token);
      }
    }
  }

  lemma KeepsSpace(token: string)
    requires ' ' in token
    ensures ' ' in StripCr(token)
  {
    var i :| 0 <= i < |token| && token[i] == ' ';
    if StripCr(token) != token { assert StripCr(token)[i] == ' '; }
  }

  lemma {:induction false} DataDoomed(sh: Shell, g: Guest, token: string, encoded: string, i: nat, rest: string) returns (g': Guest)
    requires Ascii(token) && OneLine(token) && !GoodToken(sh, token) && Doomed(g, StripCr(token))
    requires Base64.Solid(encoded) && i <= |encoded|
    ensures Doomed(g', StripCr(token)) && Serve(sh, g, DataLines(token, encoded, i) + rest) == Serve(sh, g', rest)
    decreases |encoded| - i
  {
    if i == |encoded| {
      g' := g;
      assert DataLines(token, encoded, i) + rest == rest;
    } else {
      var chunk := Chunk(encoded, i);
      DataLineSplit(token, encoded, i, rest);
      DataLineOneLine(token, chunk);
      ServeLine(sh, g, DataLine(token, chunk), DataLines(token, encoded, i + ChunkSize) + rest);
      DoomedStep(sh, g, token, chunk);
      g' := Step(sh, g, DataLine(token, chunk));
      ChunkSplit(token, encoded, i, rest);
      if i + ChunkSize < |encoded| { g' := DataDoomed(sh, g', token, encoded, i + ChunkSize, rest); }
    }
  }

  lemma DataLineOneLine(token: string, chunk: string)
    requires OneLine(token) && Base64.Solid(chunk)
    ensures OneLine(DataLine(token, chunk))
  {
    SolidOneLine(chunk);
  }

  lemma DoomedEnd(sh: Shell, g: Guest, token: string)
    requires OneLine(token) && Doomed(g, StripCr(token))
    ensures !Step(sh, g, "RUNB64_END " + token).alive
  {
    if g.alive {
      EndStep(sh, g, token, StripCr(token));
      if StripCr(token) in g.files { Base64.SpaceInvalid(g.files[StripCr(token)]); }
    }
  }

  /** The runs from the n-th event on have tokens of one line. */
  predicate OneLineRuns(events: seq<Event>, n: nat) {
    n <= |events| && forall i | n <= i < |events| && events[i].Ran? :: OneLine(events[i].token)
  }

  lemma {:induction false} DropNulOneLine(s: string)
    requires '\n' !in s
    ensures OneLine(DropNul(s))
  {
    if s != "" { DropNulOneLine(s[1..]); }
  }

  lemma StepOneLine(sh: Shell, g: Guest, raw: string, n: nat)
    requires '\n' !in raw && OneLineRuns(g.events, n)
    ensures OneLineRuns(Step(sh, g, raw).events, n)
  {
    DropNulOneLine(raw);
  }

  lemma {:induction false} ServeOneLine(sh: Shell, g: Guest, stream: string, n: nat)
    requires OneLineRuns(g.events, n)
    ensures OneLineRuns(Serve(sh, g, stream).events, n)
    decreases |stream|
  {
    var i := NewlineAt(stream);
    if i < |stream| {
      StepOneLine(sh, g, stream[..i], n);
      ServeOneLine(sh, Step(sh, g, stream[..i]), stream[i + 1..], n);
    }
  }

  // ---- A whole command ----

  /** The command was answered and run, and left no file behind. */
  function Served(g: Guest, token: string, script: string): Guest {
    Guest(g.files - {token}, true, g.events + [Said("READY"), Ran(token, script)])
  }

  function Greeted(g: Guest): Guest {
    g.(events := g.events + [Said("READY")])
  }

  lemma PingStep(sh: Shell, g: Guest, line: string)
    requires g.alive && line == "PING"
    ensures OneLine(line) && Step(sh, g, line) == Greeted(g)
  {
    DropNulSame(line);
    assert line[0] == 'P';
  }

  lemma GreetingServed(sh: Shell, g: Guest, rest: string)
    requires g.alive
    ensures Serve(sh, g, "PING" + "\n" + rest) == Serve(sh, Greeted(g), rest)
  {
    PingStep(sh, g, "PING");
    ServeLine(sh, g, "PING", rest);
  }

  lemma BeginServed(sh: Shell, g: Guest, token: string, tail: string)
    requires OneLine(token)
    ensures Serve(sh, g, "RUNB64_BEGIN " + token + "\n" + tail) == Serve(sh, Step(sh, g, "RUNB64_BEGIN " + token), tail)
  {
    OneLineJoin("RUNB64_BEGIN ", token);
    ServeLine(sh, g, "RUNB64_BEGIN " + token, tail);
  }

  lemma Opened(sh: Shell, g: Guest, token: string, encoded: string, tail: string)
    requires g.alive && Ascii(token) && OneLine(token)
    requires tail == DataLines(token, encoded, 0) + ("RUNB64_END " + token + "\n")
    ensures Serve(sh, g, Sent(token, encoded)) == Serve(sh, Step(sh, Greeted(g), "RUNB64_BEGIN " + token), tail)
  {
    GreetingServed(sh, g, Command(token, encoded));
    BeginServed(sh, Greeted(g), token, tail);
  }

  lemma Closed(sh: Shell, g: Guest, token: string)
    requires OneLine(token)
    ensures Serve(sh, g, "RUNB64_END " + token + "\n") == Step(sh, g, "RUNB64_END " + token)
  {
    var end := "RUNB64_END " + token;
    OneLineJoin("RUNB64_END ", token);
    assert end + "\n" == end + "\n" + "";
    ServeLine(sh, g, end, "");
  }

  lemma GoodServed(sh: Shell, g: Guest, token: string, encoded: string, script: string)
    requires g.alive && GoodToken(sh, token) && encoded != "" && Base64.Solid(encoded) && Base64.Decode(encoded) == Some(script)
    ensures Serve(sh, g, Sent(token, encoded)) == Served(g, token, script)
  {
    var g1 := Guest(g.files - {token}, true, g.events + [Said("READY")]);
    var end := "RUNB64_END " + token + "\n";
    Opened(sh, g, token, encoded, DataLines(token, encoded, 0) + end);
    BeginStep(sh, Greeted(g), token, token);
    assert encoded[0..] == encoded;
    DataServed(sh, g1, token, encoded, 0, end);
    EndsWell(sh, g, g1, token, encoded, script);
  }

  lemma EndsWell(sh: Shell, g: Guest, g1: Guest, token: string, encoded: string, script: string)
    requires GoodToken(sh, token) && Base64.Decode(encoded) == Some(script)
    requires g1 == Guest(g.files - {token}, true, g.events + [Said("READY")])
    ensures Serve(sh, Appended(g1, token, encoded), "RUNB64_END " + token + "\n") == Served(g, token, script)
  {
    var g2 := Appended(g1, token, encoded);
    assert FileOf(g1, token) + encoded == encoded;
    Closed(sh, g2, token);
    EndStep(sh, g2, token, token);
    assert g2.files - {token} == g.files - {token};
    assert g1.events + [Ran(token, script)] == g.events + [Said("READY"), Ran(token, script)];
  }

  /** Any other token that is one line ends the agent. */
  lemma OtherEnds(sh: Shell, g: Guest, token: string, encoded: string)
    requires g.alive && Ascii(token) && OneLine(token) && (!GoodToken(sh, token) || encoded == "") && Base64.Solid(encoded)
    ensures !Serve(sh, g, Sent(token, encoded)).alive
  {
    var end := "RUNB64_END " + token + "\n";
    Opened(sh, g, token, encoded, DataLines(token, encoded, 0) + end);
    BeginStep(sh, Greeted(g), token, StripCr(token));
    var g1 := Step(sh, Greeted(g), "RUNB64_BEGIN " + token);
    var g2 := g1;
    if encoded == "" {
      assert DataLines(token, encoded, 0) + end == end;
    } else {
      g2 := DataDoomed(sh, g1, token, encoded, 0, end);
    }
    Closed(sh, g2, token);
    DoomedEnd(sh, g2, token);
  }

  /**
    For every token and script, from any files left by earlier commands: the agent
    runs exactly the script sent, and keeps no file, if and only if the token is
    good and the script is not empty.
   */
  lemma FramingRoundTrip(sh: Shell, g: Guest, token: string, script: string)
    requires g.alive && Base64.IsBytes(script)
    ensures Serve(sh, g, Sent(token, Base64.Encode(script))) == Served(g, token, script) <==>
            GoodToken(sh, token) && script != ""
  {
    var encoded := Base64.Encode(script);
    Base64.EncodeChars(script);
    Base64.DecodeEncode(script);
    if !Ascii(token) {
      GreetingServed(sh, g, "");
    } else if !OneLine(token) {
      ServeOneLine(sh, g, Sent(token, encoded), |g.events|);
      assert Served(g, token, script).events[|g.events| + 1] == Ran(token, script);
    } else if GoodToken(sh, token) && script != "" {
      GoodServed(sh, g, token, encoded, script);
    } else {
      OtherEnds(sh, g, token, encoded);
    }
  }

  // ---- The script as the shell reads it ----

  /** The payload of a command: the exports of its environment and its script. */
  function Payload(env: seq<(string, string)>, script: string): string {
    ShellQuote.Exports(env) + "\n" + script
  }

  /** The agent ran one script, and reading it as the shell does gives back the environment and the command. */
  predicate RanAsMeant(g: Guest, g': Guest, token: string, env: seq<(string, string)>, script: string) {
    && g' == Served(g, token, Payload(env, script))
    && ShellQuote.ReadExports(g'.events[|g.events| + 1].script, |env|) == Some((env, script))
  }

  /** A command runs as meant exactly with a good token and with variables whose names are identifiers. */
  lemma CommandRoundTrip(sh: Shell, g: Guest, token: string, env: seq<(string, string)>, script: string)
    requires g.alive && ShellQuote.ValuesOk(env) && env != [] && Base64.IsBytes(Payload(env, script))
    ensures RanAsMeant(g, Serve(sh, g, Sent(token, Base64.Encode(Payload(env, script)))), token, env, script) <==>
            GoodToken(sh, token) && ShellQuote.NamesOk(env)
  {
    var payload := Payload(env, script);
    assert payload[|ShellQuote.Exports(env)|] == '\n';
    FramingRoundTrip(sh, g, token, payload);
    ShellQuote.ExportsRoundTrip(env, script);
    assert Served(g, token, payload).events[|g.events| + 1] == Ran(token, payload);
  }
}
