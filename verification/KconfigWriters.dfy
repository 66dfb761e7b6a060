/**
  The two writers.  Each reads the live, cached configuration and produces a
  text; reading the lines of that text gives back the configuration.
 */
module KconfigWriters {
  import opened Common
  import opened KconfigModel
  import opened KconfigReads
  import opened KconfigValues
  import opened KconfigFresh
  import opened KconfigCaching
  import opened KconfigInvalidate
  import opened KconfigCache
  import opened KconfigChoices
  import opened KconfigRestore
  import opened KconfigLoad
  import opened KconfigSave
  import opened KconfigRun
  import opened KconfigRoundTrip
  import opened ConfigText
  import opened MenuShape

  // ---- Texts made of lines ----

  function Join(lines: seq<string>): string {
    if lines == [] then "" else lines[0] + "\n" + Join(lines[1..])
  }

  lemma {:induction false} JoinAppend(lines: seq<string>, line: string)
    ensures Join(lines + [line]) == Join(lines) + line + "\n"
  {
    if lines == [] {
      assert [line][1..] == [];
    } else {
      JoinAppend(lines[1..], line);
      assert (lines + [line])[1..] == lines[1..] + [line];
    }
  }

  lemma {:induction false} LinesJoin(lines: seq<string>)
    requires forall line | line in lines :: NoBreak(line)
    ensures Lines(Join(lines)) == lines + [""]
  {
    if lines == [] {
      assert FirstBreak("") == 0;
    } else {
      var rest := lines[1..];
      assert forall line | line in rest :: line in lines;
      LinesJoin(rest);
      LinesCons(lines[0], Join(rest));
      PrependLine(lines, rest);
    }
  }

  lemma PrependLine(lines: seq<string>, rest: seq<string>)
    requires lines != [] && rest == lines[1..]
    ensures lines + [""] == [lines[0]] + (rest + [""])
  {
  }

  /** A line that assigns nothing. */
  predicate Quiet(k: Kconf, line: string) {
    NoBreak(line) && Assigned(k, line).None?
  }

  // ---- Cached reads are values ----

  /** The live configuration is consistent, and w holds all values under its settings. */
  ghost predicate Live(kc: Kconfig, w: State)
    reads kc.syms, kc.choices
  {
    kc.Valid() && Linked(kc.k, kc.Now()) && Solves(kc.k, w) && SameUser(kc.Now(), w)
  }

  /** Whatever the live cache holds is in w. */
  lemma LiveAgrees(kc: Kconfig, w: State)
    requires Live(kc, w)
    ensures Agrees(kc.k, kc.Now(), w)
  {
    JustifiedAgrees(kc.k, kc.rank, kc.top, kc.Now(), w);
  }

  lemma LiveLater(kc: Kconfig, w: State, before: State)
    requires kc.Valid() && Linked(kc.k, before) && Later(kc.k, before, kc.Now())
    requires Solves(kc.k, w) && SameUser(before, w)
    ensures Live(kc, w) && Agrees(kc.k, kc.Now(), w)
  {
    LaterLinked(kc.k, before, kc.Now());
    LiveAgrees(kc, w);
  }

  method ReadLine(kc: Kconfig, s: nat, ghost w: State) returns (line: Option<string>)
    requires Live(kc, w) && s < |kc.k.syms|
    modifies kc.syms, kc.choices
    ensures Live(kc, w) && line == SymbolLine(kc.k, w, s)
  {
    ghost var before := kc.Now();
    var val := kc.StrValue(s);
    LiveLater(kc, w, before);
    var d := kc.k.syms[s];
    assert SymAgrees(kc.k, kc.Now(), w, s) && SymJustified(kc.k, kc.Now(), s);
    assert kc.Now().syms[s].write == kc.syms[s].write;
    LineOfCached(kc.k, kc.Now(), w, s);
    if d.kind == Unknown || !kc.syms[s].write {
      line := None;
    } else if BoolLike(d.kind) {
      line := Some(if val != "n" then SetLine(d.name, val) else UnsetLine(d.name));
    } else if d.kind == Str {
      line := Some(SetLine(d.name, Quoted(val)));
    } else {
      line := Some(SetLine(d.name, val));
    }
  }

  lemma LineOfCached(k: Kconf, w: State, w': State, s: nat)
    requires Agrees(k, w, w') && Justified(k, w) && s < |k.syms| && w.syms[s].str.Some?
    ensures k.syms[s].kind == Unknown ==> SymbolLine(k, w', s).None?
    ensures k.syms[s].kind != Unknown ==> w'.syms[s].write == w.syms[s].write
    ensures w'.syms[s].str == w.syms[s].str
    ensures BoolLike(k.syms[s].kind) ==> w'.syms[s].tri.Some? && w.syms[s].str.value == TriName(ValueIn(w', s))
  {
    assert SymAgrees(k, w, w', s) && SymJustified(k, w, s);
  }

  // ---- The full file ----

  /** The walk over the menu tree comes to a node, and leaves it after the nodes below. */
  datatype Step = Come(i: nat) | Leave(i: nat)

  function Steps(f: Forest): seq<Step>
    decreases f
  {
    if f == [] then []
    else [Come(f[0].id)] + Steps(f[0].kids) + (if f[0].kids == [] then [] else [Leave(f[0].id)]) + Steps(f[1..])
  }

  datatype MenuItem =
    | SymNode(s: nat)
    | MenuNode(title: string, dep: Expr, visibility: Expr)
    | CommentNode(title: string, dep: Expr)
    | OtherNode

  function ItemAt(items: seq<MenuItem>, i: nat): MenuItem {
    if i < |items| then items[i] else OtherNode
  }

  /** What one step gives: a symbol, comment lines, or nothing. */
  datatype Entry = Node(s: nat) | Remark(lines: seq<string>, closesMenu: bool) | Nothing

  function Heading(title: string): seq<string> {
    ["", "#", "# " + title, "#"]
  }

  function Ending(title: string): seq<string> {
    ["# end of " + title]
  }

  predicate On(k: Kconf, w: State, e: Expr) {
    ExprVal(k, w, e) != Some(0)
  }

  function EntryOf(k: Kconf, w: State, items: seq<MenuItem>, step: Step): Entry {
    match step
    case Come(i) => (
      match ItemAt(items, i)
      case SymNode(s) => Node(s)
      case MenuNode(title, dep, visibility) =>
        if On(k, w, dep) && On(k, w, visibility) then Remark(Heading(title), false) else Nothing
      case CommentNode(title, dep) => if On(k, w, dep) then Remark(Heading(title), false) else Nothing
      case OtherNode => Nothing)
    case Leave(i) =>
      match ItemAt(items, i)
      case MenuNode(title, dep, visibility) =>
        if On(k, w, dep) && On(k, w, visibility) then Remark(Ending(title), true) else Nothing
      case _ => Nothing
  }

  /** The header of the file, then one entry for each step. */
  function Entries(k: Kconf, w: State, header: seq<string>, items: seq<MenuItem>, steps: seq<Step>): seq<Entry> {
    [Remark(header, false)] + seq(|steps|, n requires 0 <= n < |steps| => EntryOf(k, w, items, steps[n]))
  }

  ghost predicate ItemsInTree(k: Kconf, items: seq<MenuItem>) {
    forall i | 0 <= i < |items| ::
      match items[i]
      case SymNode(s) => s < |k.syms|
      case MenuNode(_, dep, visibility) => ExprInTree(k, dep) && ExprInTree(k, visibility)
      case CommentNode(_, dep) => ExprInTree(k, dep)
      case OtherNode => true
  }

  predicate Seen(order: seq<Entry>, n: nat, s: nat)
    requires n <= |order|
  {
    Node(s) in order[..n]
  }

  /** Whether the last thing written was the comment that closes a menu. */
  function JustClosed(k: Kconf, w: State, order: seq<Entry>, n: nat): bool
    requires n <= |order| && forall i | 0 <= i < |order| && order[i].Node? :: order[i].s < |k.syms|
  {
    if n == 0 then false
    else
      match order[n - 1]
      case Nothing => JustClosed(k, w, order, n - 1)
      case Remark(_, closesMenu) => closesMenu
      case Node(s) =>
        JustClosed(k, w, order, n - 1) && (Seen(order, n - 1, s) || SymbolLine(k, w, s).None?)
  }

  /** The lines that one entry adds: for a symbol, its line when it is met first, after an empty one if a menu has just been closed. */
  function EntryLines(k: Kconf, w: State, order: seq<Entry>, n: nat): seq<string>
    requires n < |order| && forall i | 0 <= i < |order| && order[i].Node? :: order[i].s < |k.syms|
  {
    match order[n]
    case Nothing => []
    case Remark(lines, _) => lines
    case Node(s) =>
      if Seen(order, n, s) || SymbolLine(k, w, s).None? then []
      else (if JustClosed(k, w, order, n) then [""] else []) + [SymbolLine(k, w, s).value]
  }

  /** The lines written for the first n entries. */
  function FullLines(k: Kconf, w: State, order: seq<Entry>, n: nat): seq<string>
    requires n <= |order| && forall i | 0 <= i < |order| && order[i].Node? :: order[i].s < |k.syms|
  {
    if n == 0 then [] else FullLines(k, w, order, n - 1) + EntryLines(k, w, order, n - 1)
  }

  /** A menu has its heading, and its closing comment, exactly while its dependencies and its `visible if` are not n. */
  lemma MenuMeaning(k: Kconf, w: State, order: seq<Entry>, n: nat, items: seq<MenuItem>, step: Step, title: string, dep: Expr,
                    visibility: Expr)
    requires n < |order| && forall i | 0 <= i < |order| && order[i].Node? :: order[i].s < |k.syms|
    requires order[n] == EntryOf(k, w, items, step) && ItemAt(items, step.i) == MenuNode(title, dep, visibility)
    requires ExprVal(k, w, dep).Some? && ExprVal(k, w, visibility).Some?
    ensures EntryLines(k, w, order, n) ==
      if ExprVal(k, w, dep).value == 0 || ExprVal(k, w, visibility).value == 0 then []
      else if step.Come? then ["", "#", "# " + title, "#"] else ["# end of " + title]
  {
  }

  /** An entry that writes nothing. */
  predicate Silent(k: Kconf, w: State, order: seq<Entry>, i: nat)
    requires i < |order| && forall j | 0 <= j < |order| && order[j].Node? :: order[j].s < |k.syms|
  {
    !order[i].Remark? && EntryLines(k, w, order, i) == []
  }

  /** Entry j closes a menu, and nothing is written after it up to entry n. */
  predicate ClosedBy(k: Kconf, w: State, order: seq<Entry>, j: nat, n: nat)
    requires n <= |order| && forall j | 0 <= j < |order| && order[j].Node? :: order[j].s < |k.syms|
  {
    j < n && order[j].Remark? && order[j].closesMenu && forall i | j < i < n :: Silent(k, w, order, i)
  }

  lemma {:induction false} ClosedWitness(k: Kconf, w: State, order: seq<Entry>, n: nat) returns (j: nat)
    requires n <= |order| && forall i | 0 <= i < |order| && order[i].Node? :: order[i].s < |k.syms|
    requires JustClosed(k, w, order, n)
    ensures ClosedBy(k, w, order, j, n)
  {
    if order[n - 1].Remark? {
      j := n - 1;
    } else {
      StillClosed(k, w, order, n);
      j := ClosedWitness(k, w, order, n - 1);
    }
  }

  lemma {:induction false} ClosedEnough(k: Kconf, w: State, order: seq<Entry>, j: nat, n: nat)
    requires n <= |order| && forall i | 0 <= i < |order| && order[i].Node? :: order[i].s < |k.syms|
    requires ClosedBy(k, w, order, j, n)
    ensures JustClosed(k, w, order, n)
  {
    if j < n - 1 {
      assert Silent(k, w, order, n - 1);
      ClosedEnough(k, w, order, j, n - 1);
      StillClosed(k, w, order, n);
    }
  }

  /** The empty line belongs before a symbol exactly if the last thing written is the comment that closes a menu. */
  lemma ClosedMeaning(k: Kconf, w: State, order: seq<Entry>, n: nat)
    requires n <= |order| && forall i | 0 <= i < |order| && order[i].Node? :: order[i].s < |k.syms|
    ensures JustClosed(k, w, order, n) <==> exists j: nat :: ClosedBy(k, w, order, j, n)
  {
    if JustClosed(k, w, order, n) { var j := ClosedWitness(k, w, order, n); }
    forall j: nat | ClosedBy(k, w, order, j, n) ensures JustClosed(k, w, order, n) { ClosedEnough(k, w, order, j, n); }
  }

  lemma StillClosed(k: Kconf, w: State, order: seq<Entry>, n: nat)
    requires 0 < n <= |order| && forall i | 0 <= i < |order| && order[i].Node? :: order[i].s < |k.syms|
    requires !order[n - 1].Remark?
    ensures JustClosed(k, w, order, n) <==> JustClosed(k, w, order, n - 1) && Silent(k, w, order, n - 1)
  {
  }

  lemma {:induction false} JoinConcat(a: seq<string>, b: seq<string>)
    ensures Join(a + b) == Join(a) + Join(b)
  {
    if a == [] {
      assert a + b == b;
    } else {
      JoinConcat(a[1..], b);
      assert (a + b)[1..] == a[1..] + b;
    }
  }

  /** The text that one entry adds. */
  function EntryText(k: Kconf, w: State, order: seq<Entry>, n: nat): string
    requires n < |order| && forall i | 0 <= i < |order| && order[i].Node? :: order[i].s < |k.syms|
  {
    match order[n]
    case Nothing => ""
    case Remark(lines, _) => Join(lines)
    case Node(s) =>
      if Seen(order, n, s) || SymbolLine(k, w, s).None? then ""
      else (if JustClosed(k, w, order, n) then "\n" else "") + SymbolLine(k, w, s).value + "\n"
  }

  lemma EntryTextIs(k: Kconf, w: State, order: seq<Entry>, n: nat)
    requires n < |order| && forall i | 0 <= i < |order| && order[i].Node? :: order[i].s < |k.syms|
    ensures Join(FullLines(k, w, order, n + 1)) == Join(FullLines(k, w, order, n)) + EntryText(k, w, order, n)
  {
    JoinConcat(FullLines(k, w, order, n), EntryLines(k, w, order, n));
    if order[n].Node? && !Seen(order, n, order[n].s) && SymbolLine(k, w, order[n].s).Some? {
      JoinEntry(JustClosed(k, w, order, n), SymbolLine(k, w, order[n].s).value);
    }
  }

  /** A line, after an empty one if the menu before it has just been closed. */
  lemma JoinEntry(closed: bool, line: string)
    ensures Join((if closed then [""] else []) + [line]) == (if closed then "\n" else "") + line + "\n"
  {
    var before := if closed then [""] else [];
    JoinAppend(before, line);
    assert closed ==> before[1..] == [] && Join(before) == "" + "\n" + "";
  }

  /** The text of a symbol node that is met for the first time, and whether a closing comment is still the last thing. */
  method NodeChunk(kc: Kconfig, s: nat, closed: bool, ghost w: State) returns (chunk: string, stillClosed: bool)
    requires Live(kc, w) && s < |kc.k.syms|
    modifies kc.syms, kc.choices
    ensures Live(kc, w)
    ensures var line := SymbolLine(kc.k, w, s);
            && stillClosed == (closed && line.None?)
            && chunk == if line.None? then "" else (if closed then "\n" else "") + line.value + "\n"
  {
    chunk, stillClosed := "", closed;
    var line := ReadLine(kc, s, w);
    if line.Some? {
      chunk := (if closed then "\n" else "") + line.value + "\n";
      stillClosed := false;
    }
  }

  method ReadMenuExpr(kc: Kconfig, e: Expr, ghost w: State) returns (on: bool)
    requires Live(kc, w) && ExprInTree(kc.k, e)
    modifies kc.syms, kc.choices
    ensures Live(kc, w) && on == On(kc.k, w, e)
  {
    ghost var before := kc.Now();
    var v := kc.ExprValue(e, kc.top, 4, None);
    LiveLater(kc, w, before);
    LiveExpr(kc, w, e);
    on := v != 0;
  }

  method ReadMenu(kc: Kconfig, dep: Expr, visibility: Expr, ghost w: State) returns (on: bool)
    requires Live(kc, w) && ExprInTree(kc.k, dep) && ExprInTree(kc.k, visibility)
    modifies kc.syms, kc.choices
    ensures Live(kc, w) && on == (On(kc.k, w, dep) && On(kc.k, w, visibility))
  {
    on := ReadMenuExpr(kc, dep, w);
    if on {
      on := ReadMenuExpr(kc, visibility, w);
    }
  }

  method ReadEntry(kc: Kconfig, items: seq<MenuItem>, step: Step, ghost w: State) returns (entry: Entry)
    requires Live(kc, w) && ItemsInTree(kc.k, items)
    modifies kc.syms, kc.choices
    ensures Live(kc, w) && entry == EntryOf(kc.k, w, items, step)
  {
    entry := Nothing;
    match ItemAt(items, step.i) {
      case SymNode(s) =>
        entry := if step.Come? then Node(s) else Nothing;
      case MenuNode(title, dep, visibility) =>
        var on := ReadMenu(kc, dep, visibility, w);
        if on {
          entry := if step.Come? then Remark(Heading(title), false) else Remark(Ending(title), true);
        }
      case CommentNode(title, dep) =>
        if step.Come? {
          var on := ReadMenuExpr(kc, dep, w);
          entry := if on then Remark(Heading(title), false) else Nothing;
        }
      case OtherNode =>
    }
  }

  lemma EntriesInTree(k: Kconf, w: State, header: seq<string>, items: seq<MenuItem>, steps: seq<Step>)
    requires ItemsInTree(k, items)
    ensures var order := Entries(k, w, header, items, steps);
      && |order| == |steps| + 1 && order[0] == Remark(header, false)
      && (forall n | 0 <= n < |steps| :: order[n + 1] == EntryOf(k, w, items, steps[n]))
      && forall i | 0 <= i < |order| && order[i].Node? :: order[i].s < |k.syms|
  {
    var order := Entries(k, w, header, items, steps);
    forall n | 0 <= n < |steps|
      ensures order[n + 1] == EntryOf(k, w, items, steps[n]) && (order[n + 1].Node? ==> order[n + 1].s < |k.syms|)
    {
      NodeInTree(k, w, items, steps[n]);
    }
    forall i | 0 <= i < |order| && order[i].Node? ensures order[i].s < |k.syms| {
      assert i > 0 && order[i] == order[i - 1 + 1];
    }
  }

  lemma NodeInTree(k: Kconf, w: State, items: seq<MenuItem>, step: Step)
    requires ItemsInTree(k, items)
    ensures EntryOf(k, w, items, step).Node? ==> EntryOf(k, w, items, step).s < |k.syms|
  {
  }

  method WriteConfig(kc: Kconfig, header: seq<string>, items: seq<MenuItem>, steps: seq<Step>, ghost w: State)
    returns (text: string)
    requires Live(kc, w) && ItemsInTree(kc.k, items)
    modifies kc.syms, kc.choices
    ensures Live(kc, w)
    ensures var order := Entries(kc.k, w, header, items, steps);
      && (forall i | 0 <= i < |order| && order[i].Node? :: order[i].s < |kc.k.syms|)
      && text == Join(FullLines(kc.k, w, order, |order|))
  {
    ghost var k, order := kc.k, Entries(kc.k, w, header, items, steps);
    EntriesInTree(k, w, header, items, steps);
    var visited: set<nat> := {};
    var closed := false;
    visited, closed, text := WriteEntry(kc, Remark(header, false), order, 0, visited, closed, "", w);
    for n := 0 to |steps|
      invariant Live(kc, w) && WrittenUpTo(k, w, order, n + 1, visited, closed, text)
    {
      visited, closed, text := WriteStep(kc, items, steps[n], order, n, visited, closed, text, w);
    }
  }

  method WriteStep(
    kc: Kconfig, items: seq<MenuItem>, step: Step, ghost order: seq<Entry>, ghost n: nat,
    visited: set<nat>, closed: bool, text: string, ghost w: State)
    returns (visited': set<nat>, closed': bool, text': string)
    requires Live(kc, w) && ItemsInTree(kc.k, items) && n + 1 < |order| && order[n + 1] == EntryOf(kc.k, w, items, step)
    requires forall i | 0 <= i < |order| && order[i].Node? :: order[i].s < |kc.k.syms|
    requires WrittenUpTo(kc.k, w, order, n + 1, visited, closed, text)
    modifies kc.syms, kc.choices
    ensures Live(kc, w) && WrittenUpTo(kc.k, w, order, n + 2, visited', closed', text')
  {
    var entry := ReadEntry(kc, items, step, w);
    visited', closed', text' := WriteEntry(kc, entry, order, n + 1, visited, closed, text, w);
  }

  /** The symbols met, the last comment and the text after the first n entries. */
  ghost predicate WrittenUpTo(k: Kconf, w: State, order: seq<Entry>, n: nat, visited: set<nat>, closed: bool, text: string)
    requires n <= |order| && forall i | 0 <= i < |order| && order[i].Node? :: order[i].s < |k.syms|
  {
    && (forall s :: s in visited <==> Seen(order, n, s))
    && closed == JustClosed(k, w, order, n) && text == Join(FullLines(k, w, order, n))
  }

  method WriteEntry(
    kc: Kconfig, entry: Entry, ghost order: seq<Entry>, ghost n: nat, visited: set<nat>, closed: bool, text: string, ghost w: State)
    returns (visited': set<nat>, closed': bool, text': string)
    requires Live(kc, w) && n < |order| && entry == order[n]
    requires forall i | 0 <= i < |order| && order[i].Node? :: order[i].s < |kc.k.syms|
    requires WrittenUpTo(kc.k, w, order, n, visited, closed, text)
    modifies kc.syms, kc.choices
    ensures Live(kc, w) && WrittenUpTo(kc.k, w, order, n + 1, visited', closed', text')
  {
    var chunk := "";
    visited', closed' := visited, closed;
    match entry {
      case Nothing =>
      case Remark(lines, closesMenu) =>
        chunk := Join(lines);
        closed' := closesMenu;
      case Node(s) =>
        if s !in visited {
          visited' := visited + {s};
          chunk, closed' := NodeChunk(kc, s, closed, w);
        }
    }
    text' := text + chunk;
    EntryWritten(kc.k, w, order, n, visited, closed, text, visited', closed', chunk);
  }

  lemma EntryWritten(
    k: Kconf, w: State, order: seq<Entry>, n: nat, visited: set<nat>, closed: bool, text: string,
    visited': set<nat>, closed': bool, chunk: string)
    requires n < |order| && forall i | 0 <= i < |order| && order[i].Node? :: order[i].s < |k.syms|
    requires WrittenUpTo(k, w, order, n, visited, closed, text)
    requires visited' == if order[n].Node? then visited + {order[n].s} else visited
    requires match order[n]
      case Nothing => chunk == "" && closed' == closed
      case Remark(lines, closesMenu) => chunk == Join(lines) && closed' == closesMenu
      case Node(s) =>
        if s in visited || SymbolLine(k, w, s).None? then chunk == "" && closed' == closed
        else chunk == (if closed then "\n" else "") + SymbolLine(k, w, s).value + "\n" && !closed'
    ensures WrittenUpTo(k, w, order, n + 1, visited', closed', text + chunk)
  {
    SeenNext(order, n);
    EntryTextIs(k, w, order, n);
    ClosedNext(k, w, order, n);
    assert chunk == EntryText(k, w, order, n);
  }

  lemma ClosedNext(k: Kconf, w: State, order: seq<Entry>, n: nat)
    requires n < |order| && forall i | 0 <= i < |order| && order[i].Node? :: order[i].s < |k.syms|
    ensures JustClosed(k, w, order, n + 1) ==
      match order[n]
      case Nothing => JustClosed(k, w, order, n)
      case Remark(_, closesMenu) => closesMenu
      case Node(s) => JustClosed(k, w, order, n) && (Seen(order, n, s) || SymbolLine(k, w, s).None?)
  {
  }

  lemma SeenNext(order: seq<Entry>, n: nat)
    requires n < |order|
    ensures forall s :: Seen(order, n + 1, s) <==> Seen(order, n, s) || order[n] == Node(s)
  {
    assert order[..n + 1] == order[..n] + [order[n]];
  }

  ghost predicate RemarksQuiet(k: Kconf, order: seq<Entry>) {
    forall i, j | 0 <= i < |order| && order[i].Remark? && 0 <= j < |order[i].lines| :: Quiet(k, order[i].lines[j])
  }

  ghost predicate CoversAll(k: Kconf, order: seq<Entry>) {
    && (forall i | 0 <= i < |order| && order[i].Node? :: order[i].s < |k.syms|)
    && (forall s | 0 <= s < |k.syms| :: Node(s) in order)
  }

  lemma SymbolLineNoBreak(k: Kconf, w: State, s: nat)
    requires NamesOk(k) && TextsOk(k, w) && s < |k.syms|
    requires SymbolLine(k, w, s).Some?
    ensures NoBreak(SymbolLine(k, w, s).value)
  {
    if k.syms[s].kind == Str { QuotedGood(StringIn(w, s)); }
  }

  /** A line of a file that saves the given symbols. */
  ghost predicate LineOk(k: Kconf, w: State, line: string, saved: set<nat>)
    requires forall s | s in saved :: s < |k.syms|
  {
    NoBreak(line) && (Assigned(k, line).None? || SavedLine(k, w, line, saved))
  }

  lemma EntryLinesOk(k: Kconf, w: State, order: seq<Entry>, n: nat)
    requires NamesOk(k) && TextsOk(k, w)
    requires RemarksQuiet(k, order) && CoversAll(k, order) && n < |order|
    ensures AllOk(k, w, EntryLines(k, w, order, n), WrittenSyms(k, w))
  {
    match order[n]
    case Nothing =>
    case Node(s) =>
      if SymbolLine(k, w, s).Some? {
        assert s in WrittenSyms(k, w);
        SymbolLineNoBreak(k, w, s);
        assert LineOk(k, w, SymbolLine(k, w, s).value, WrittenSyms(k, w));
        assert Quiet(k, "") && LineOk(k, w, "", WrittenSyms(k, w));
      }
    case Remark(lines, _) =>
      forall line | line in lines ensures LineOk(k, w, line, WrittenSyms(k, w)) {
        var j :| 0 <= j < |lines| && lines[j] == line;
        assert Quiet(k, order[n].lines[j]);
      }
  }

  ghost predicate AllOk(k: Kconf, w: State, lines: seq<string>, saved: set<nat>)
    requires forall s | s in saved :: s < |k.syms|
  {
    forall line | line in lines :: LineOk(k, w, line, saved)
  }

  lemma AllOkAppend(k: Kconf, w: State, a: seq<string>, b: seq<string>, saved: set<nat>)
    requires (forall s | s in saved :: s < |k.syms|) && AllOk(k, w, a, saved) && AllOk(k, w, b, saved)
    ensures AllOk(k, w, a + b, saved)
  {
  }

  lemma {:induction false} FullLinesOk(k: Kconf, w: State, order: seq<Entry>, n: nat, saved: set<nat>)
    requires (forall i | 0 <= i < |order| && order[i].Node? :: order[i].s < |k.syms|) && n <= |order|
    requires forall s | s in saved :: s < |k.syms|
    requires forall i | 0 <= i < n :: AllOk(k, w, EntryLines(k, w, order, i), saved)
    ensures AllOk(k, w, FullLines(k, w, order, n), saved)
  {
    if n > 0 {
      FullLinesOk(k, w, order, n - 1, saved);
      AllOkAppend(k, w, FullLines(k, w, order, n - 1), EntryLines(k, w, order, n - 1), saved);
    }
  }

  lemma {:induction false} FullLinesSave(k: Kconf, w: State, order: seq<Entry>, n: nat, s: nat)
    requires CoversAll(k, order) && n <= |order| && s < |k.syms| && SymbolLine(k, w, s).Some? && Seen(order, n, s)
    ensures SymbolLine(k, w, s).value in FullLines(k, w, order, n)
  {
    if n > 0 {
      assert order[..n] == order[..n - 1] + [order[n - 1]];
      if Seen(order, n - 1, s) { FullLinesSave(k, w, order, n - 1, s); }
    }
  }

  lemma OrderLinesOk(k: Kconf, w: State, order: seq<Entry>)
    requires NamesOk(k) && TextsOk(k, w) && RemarksQuiet(k, order) && CoversAll(k, order)
    ensures AllOk(k, w, FullLines(k, w, order, |order|), WrittenSyms(k, w))
  {
    forall i | 0 <= i < |order| ensures AllOk(k, w, EntryLines(k, w, order, i), WrittenSyms(k, w)) {
      EntryLinesOk(k, w, order, i);
    }
    FullLinesOk(k, w, order, |order|, WrittenSyms(k, w));
  }

  /** The text of the full writer is a file that saves every written symbol. */
  lemma FullTextIsFile(k: Kconf, rank: Item -> nat, top: nat, w: State, order: seq<Entry>)
    requires Table(k, rank, top, w) && NamesOk(k) && TextsOk(k, w)
    requires RemarksQuiet(k, order) && CoversAll(k, order)
    ensures File(k, rank, top, w, Lines(Join(FullLines(k, w, order, |order|))), WrittenSyms(k, w))
  {
    var lines := FullLines(k, w, order, |order|);
    OrderLinesOk(k, w, order);
    assert order[..|order|] == order;
    forall s | s in WrittenSyms(k, w) ensures SymbolLine(k, w, s).value in lines {
      FullLinesSave(k, w, order, |order|, s);
    }
    TextIsFile(k, rank, top, w, lines, WrittenSyms(k, w));
  }

  lemma TextIsFile(k: Kconf, rank: Item -> nat, top: nat, w: State, lines: seq<string>, saved: set<nat>)
    requires Table(k, rank, top, w) && NamesOk(k) && TextsOk(k, w)
    requires forall s | s in saved :: s < |k.syms| && SymbolLine(k, w, s).Some? && SymbolLine(k, w, s).value in lines
    requires AllOk(k, w, lines, saved)
    ensures File(k, rank, top, w, Lines(Join(lines)), saved)
  {
    LinesJoin(lines);
    var all := lines + [""];
    forall i | 0 <= i < |all| ensures Assigned(k, all[i]).None? || SavedLine(k, w, all[i], saved) {
      if i < |lines| {
        assert lines[i] in lines;
      } else {
        assert Quiet(k, all[i]);
      }
    }
  }

  // ---- The minimal file ----

  /** The lines of the kept symbols among the first n, in definition order. */
  ghost function MinLines(k: Kconf, w: State, kept: set<nat>, n: nat): seq<string>
    requires n <= |k.syms| && forall s | s in kept :: s < |k.syms| && SymbolLine(k, w, s).Some?
  {
    if n == 0 then []
    else if n - 1 in kept then MinLines(k, w, kept, n - 1) + [SymbolLine(k, w, n - 1).value]
    else MinLines(k, w, kept, n - 1)
  }

  /** A rule's result on a cache is its result on the complete table. */
  lemma LiveExpr(kc: Kconfig, w: State, e: Expr)
    requires Live(kc, w) && ExprVal(kc.k, kc.Now(), e).Some?
    requires ExprInTree(kc.k, e)
    ensures ExprVal(kc.k, w, e) == ExprVal(kc.k, kc.Now(), e)
  {
    LiveAgrees(kc, w);
    AgreesKeeps(kc.k, kc.Now(), w);
    ExprKept(kc.k, kc.Now(), w, e);
  }

  method ReadExpr(kc: Kconfig, s: nat, e: Expr, ghost w: State) returns (v: Tri)
    requires Live(kc, w) && s < |kc.k.syms| && kc.Below(e, kc.rank(ISym(s)), kc.k.syms[s].choice)
    modifies kc.syms, kc.choices
    ensures Live(kc, w) && ExprVal(kc.k, w, e) == Some(v)
  {
    ghost var before := kc.Now();
    v := kc.ExprValue(e, kc.rank(ISym(s)), 4, kc.k.syms[s].choice);
    LiveLater(kc, w, before);
    LiveExpr(kc, w, e);
  }

  method ReadDefaultName(kc: Kconfig, s: nat, ghost w: State) returns (name: string)
    requires Live(kc, w) && s < |kc.k.syms|
    modifies kc.syms, kc.choices
    ensures Live(kc, w) && DefaultName(kc.k, w, s) == Some(name)
  {
    var d := kc.k.syms[s];
    kc.SymExprsBelow(s);
    if BoolLike(d.kind) {
      name := "n";
      if d.choice.None? {
        var val := ReadDefaultTri(kc, s, w);
        var rev := ReadExpr(kc, s, d.revDep, w);
        var weak := ReadExpr(kc, s, d.weakRevDep, w);
        val := Max(rev, Max(weak, val));
        name := TriName(val);
        if val == 1 {
          var isBool := ReadIsBool(kc, s, w);
          if isBool {
            name := "y";
          }
        }
      }
    } else if d.kind != Unknown {
      name := ReadDefaultStr(kc, s, w);
    } else {
      name := "";
    }
  }

  method ReadDefaultTri(kc: Kconfig, s: nat, ghost w: State) returns (v: Tri)
    requires Live(kc, w) && s < |kc.k.syms|
    modifies kc.syms, kc.choices
    ensures Live(kc, w) && DefaultTri(kc.k, w, kc.k.syms[s].defaults) == Some(v)
  {
    ghost var before := kc.Now();
    v := kc.DefaultTriValue(s);
    LiveLater(kc, w, before);
    AgreesKeeps(kc.k, kc.Now(), w);
    DefaultTriKept(kc.k, kc.Now(), w, kc.k.syms[s]);
  }

  method ReadIsBool(kc: Kconfig, s: nat, ghost w: State) returns (b: bool)
    requires Live(kc, w) && s < |kc.k.syms|
    modifies kc.syms, kc.choices
    ensures Live(kc, w) && NotTristate(kc.k, w, s) == Some(b)
  {
    ghost var before := kc.Now();
    b := kc.IsNotTristate(s);
    LiveLater(kc, w, before);
    AgreesKeeps(kc.k, kc.Now(), w);
    assert SymWellFormed(kc.k, kc.k.syms[s]);
    NotTristateKept(kc.k, kc.Now(), w, s);
  }

  method ReadDefaultStr(kc: Kconfig, s: nat, ghost w: State) returns (v: string)
    requires Live(kc, w) && s < |kc.k.syms| && !BoolLike(kc.k.syms[s].kind) && kc.k.syms[s].kind != Unknown
    modifies kc.syms, kc.choices
    ensures Live(kc, w)
    ensures DefaultName(kc.k, w, s) == Some(v)
  {
    ghost var before := kc.Now();
    var def := kc.DefaultStrValue(s);
    LiveLater(kc, w, before);
    AgreesKeeps(kc.k, kc.Now(), w);
    DefaultStrKept(kc.k, kc.Now(), w, kc.k.syms[s]);
    v := if def.Some? then def.value else "";
  }

  method ReadFixed(kc: Kconfig, s: nat, ghost w: State) returns (b: bool)
    requires Live(kc, w) && s < |kc.k.syms|
    modifies kc.syms, kc.choices
    ensures Live(kc, w) && Fixed(kc.k, w, s) == Some(b)
  {
    b := false;
    if kc.k.syms[s].choice.None? {
      ghost var before := kc.Now();
      var vis := kc.SymVisibility(s);
      LiveLater(kc, w, before);
      assert SymAgrees(kc.k, kc.Now(), w, s);
      kc.SymExprsBelow(s);
      var rev := ReadExpr(kc, s, kc.k.syms[s].revDep, w);
      b := vis <= rev;
    }
  }

  method ReadSelectedByDefault(kc: Kconfig, s: nat, ghost w: State) returns (b: bool)
    requires Live(kc, w) && s < |kc.k.syms|
    modifies kc.syms, kc.choices
    ensures Live(kc, w) && SelectedByDefault(kc.k, w, s) == Some(b)
  {
    b := false;
    if kc.k.syms[s].choice.None? {
      return;
    }
    assert SymWellFormed(kc.k, kc.k.syms[s]);
    var c := kc.k.syms[s].choice.value;
    if kc.k.choices[c].optional {
      return;
    }
    ghost var before := kc.Now();
    var sel := kc.DefaultSelection(c);
    LiveLater(kc, w, before);
    AgreesKeeps(kc.k, kc.Now(), w);
    SelFromDefaultsKept(kc.k, kc.Now(), w, c);
    if sel != Some(s) || kc.k.syms[s].kind != Bool {
      return;
    }
    before := kc.Now();
    var t := kc.TriValue(s);
    LiveLater(kc, w, before);
    assert SymAgrees(kc.k, kc.Now(), w, s);
    b := t == 2;
  }

  method ReadStr(kc: Kconfig, s: nat, ghost w: State) returns (v: string)
    requires Live(kc, w) && s < |kc.k.syms|
    modifies kc.syms, kc.choices
    ensures Live(kc, w) && StrOf(kc.k, w, Sym(s)) == Some(v)
  {
    ghost var before := kc.Now();
    v := kc.StrValue(s);
    LiveLater(kc, w, before);
    assert SymAgrees(kc.k, kc.Now(), w, s);
  }

  method KeepInMin(kc: Kconfig, s: nat, ghost w: State) returns (b: bool)
    requires Live(kc, w) && s < |kc.k.syms|
    modifies kc.syms, kc.choices
    ensures Live(kc, w) && MinKept(kc.k, w, s) == Some(b)
  {
    var fixed := ReadFixed(kc, s, w);
    if fixed {
      return false;
    }
    var val := ReadStr(kc, s, w);
    var def := ReadDefaultName(kc, s, w);
    if val == def {
      return false;
    }
    var byDefault := ReadSelectedByDefault(kc, s, w);
    return !byDefault;
  }

  /** The text that one symbol adds to the minimal file. */
  ghost function MinText(k: Kconf, w: State, kept: set<nat>, s: nat): string
    requires s < |k.syms| && forall s | s in kept :: s < |k.syms| && SymbolLine(k, w, s).Some?
  {
    if s in kept then SymbolLine(k, w, s).value + "\n" else ""
  }

  lemma MinTextIs(k: Kconf, w: State, kept: set<nat>, n: nat)
    requires n < |k.syms| && forall s | s in kept :: s < |k.syms| && SymbolLine(k, w, s).Some?
    ensures Join(MinLines(k, w, kept, n + 1)) == Join(MinLines(k, w, kept, n)) + MinText(k, w, kept, n)
  {
    if n in kept { JoinAppend(MinLines(k, w, kept, n), SymbolLine(k, w, n).value); }
  }

  /** The minimal file as far as the first n symbols go. */
  ghost function MinFile(k: Kconf, w: State, n: nat): string
    requires n <= |k.syms|
  {
    Join(MinLines(k, w, MinSyms(k, w), n))
  }

  method MinChunk(kc: Kconfig, s: nat, ghost w: State) returns (chunk: string)
    requires Live(kc, w) && s < |kc.k.syms|
    modifies kc.syms, kc.choices
    ensures Live(kc, w) && chunk == MinText(kc.k, w, MinSyms(kc.k, w), s)
  {
    chunk := "";
    var keep := KeepInMin(kc, s, w);
    if keep {
      var line := ReadLine(kc, s, w);
      if line.Some? {
        chunk := line.value + "\n";
      }
    }
  }

  method WriteMinConfig(kc: Kconfig, ghost w: State) returns (text: string)
    requires Live(kc, w)
    modifies kc.syms, kc.choices
    ensures Live(kc, w)
    ensures text == MinFile(kc.k, w, |kc.k.syms|)
  {
    text := "";
    for s := 0 to |kc.k.syms|
      invariant Live(kc, w)
      invariant text == MinFile(kc.k, w, s)
    {
      text := AddMinChunk(kc, s, w, text);
    }
  }

  method AddMinChunk(kc: Kconfig, s: nat, ghost w: State, before: string) returns (text: string)
    requires Live(kc, w) && s < |kc.k.syms|
    requires before == MinFile(kc.k, w, s)
    modifies kc.syms, kc.choices
    ensures Live(kc, w) && text == MinFile(kc.k, w, s + 1)
  {
    var chunk := MinChunk(kc, s, w);
    MinTextIs(kc.k, w, MinSyms(kc.k, w), s);
    text := before + chunk;
  }

  lemma {:induction false} MinLineOrigin(k: Kconf, w: State, kept: set<nat>, n: nat, line: string)
    requires n <= |k.syms| && forall s | s in kept :: s < |k.syms| && SymbolLine(k, w, s).Some?
    requires line in MinLines(k, w, kept, n)
    ensures exists s | s in kept :: SymbolLine(k, w, s) == Some(line)
  {
    if n > 0 && line in MinLines(k, w, kept, n - 1) {
      MinLineOrigin(k, w, kept, n - 1, line);
    } else if n > 0 {
      assert n - 1 in kept;
    }
  }

  lemma MinLinesOk(k: Kconf, rank: Item -> nat, top: nat, w: State)
    requires Table(k, rank, top, w) && NamesOk(k) && TextsOk(k, w)
    ensures forall line | line in MinLines(k, w, MinSyms(k, w), |k.syms|) :: LineOk(k, w, line, MinSyms(k, w))
  {
    forall line | line in MinLines(k, w, MinSyms(k, w), |k.syms|) ensures LineOk(k, w, line, MinSyms(k, w)) {
      MinLineOrigin(k, w, MinSyms(k, w), |k.syms|, line);
      var s :| s in MinSyms(k, w) && SymbolLine(k, w, s) == Some(line);
      SymbolLineNoBreak(k, w, s);
    }
  }

  lemma {:induction false} MinLinesHave(k: Kconf, w: State, kept: set<nat>, n: nat, s: nat)
    requires s < n <= |k.syms| && s in kept && forall t | t in kept :: t < |k.syms| && SymbolLine(k, w, t).Some?
    ensures SymbolLine(k, w, s).value in MinLines(k, w, kept, n)
  {
    if s < n - 1 { MinLinesHave(k, w, kept, n - 1, s); }
  }

  /** The lines come in definition order: that of symbol s stands behind those of the kept symbols before it. */
  lemma {:induction false} MinOrder(k: Kconf, w: State, kept: set<nat>, n: nat, s: nat)
    requires s < n <= |k.syms| && s in kept && forall t | t in kept :: t < |k.syms| && SymbolLine(k, w, t).Some?
    ensures MinLines(k, w, kept, s) + [SymbolLine(k, w, s).value] <= MinLines(k, w, kept, n)
  {
    if s < n - 1 { MinOrder(k, w, kept, n - 1, s); }
  }

  /** The text of the minimal writer is a file that saves the symbols it keeps. */
  lemma MinTextIsFile(k: Kconf, rank: Item -> nat, top: nat, w: State)
    requires Table(k, rank, top, w) && NamesOk(k) && TextsOk(k, w)
    ensures File(k, rank, top, w, Lines(Join(MinLines(k, w, MinSyms(k, w), |k.syms|))), MinSyms(k, w))
  {
    var kept := MinSyms(k, w);
    MinLinesOk(k, rank, top, w);
    forall s | s in kept ensures SymbolLine(k, w, s).value in MinLines(k, w, kept, |k.syms|) {
      MinLinesHave(k, w, kept, |k.syms|, s);
    }
    TextIsFile(k, rank, top, w, MinLines(k, w, kept, |k.syms|), kept);
  }

  // ---- Writing, then loading into a fresh instance ----

  /** The settings of a configuration that meets the conditions of the round trips. */
  ghost predicate Savable(kc: Kconfig, w: State)
    reads kc.syms, kc.choices
  {
    && Live(kc, w) && Table(kc.k, kc.rank, kc.top, w)
    && NamesOk(kc.k) && TextsOk(kc.k, w) && UnwrittenUnset(kc.k, w)
  }

  /** A new instance that has loaded a text. */
  method Reload(kc: Kconfig, text: string) returns (copy: Kconfig)
    requires kc.Valid()
    ensures copy.Valid() && copy.k == kc.k && fresh(copy.syms) && fresh(copy.choices)
    ensures exists w' :: Live(copy, w')
    ensures forall w' | Live(copy, w') :: Reloaded(kc.k, Lines(text), w')
  {
    copy := new Kconfig(kc.k, kc.rank, kc.top);
    LoadConfig(copy, Lines(text), true);
    LiveTable(copy);
  }

  /** A live cache has a complete table of values. */
  lemma LiveTable(kc: Kconfig)
    requires kc.Valid() && Linked(kc.k, kc.Now())
    ensures exists w' :: Live(kc, w')
  {
    FreshSolves(kc.k, kc.rank, kc.top, kc.Now());
    assert Live(kc, Fresh(kc.k, kc.Now(), 4 * kc.top));
  }

  /** The comment lines of a menu, whatever is in its titles, assign nothing. */
  ghost predicate TitlesQuiet(k: Kconf, header: seq<string>, items: seq<MenuItem>) {
    && (forall j | 0 <= j < |header| :: Quiet(k, header[j]))
    && (forall i | 0 <= i < |items| && items[i].MenuNode? ::
          Quiet(k, "# " + items[i].title) && Quiet(k, "# end of " + items[i].title))
    && (forall i | 0 <= i < |items| && items[i].CommentNode? :: Quiet(k, "# " + items[i].title))
  }

  /** Every symbol has a node in the menu. */
  ghost predicate AllInMenu(k: Kconf, items: seq<MenuItem>, f: Forest) {
    forall s | 0 <= s < |k.syms| :: InMenu(items, f, s)
  }

  ghost predicate InMenu(items: seq<MenuItem>, f: Forest, s: nat) {
    exists n | 0 <= n < |Pre(f)| :: ItemAt(items, Pre(f)[n]) == SymNode(s)
  }

  lemma {:induction false} ComesTo(f: Forest, i: nat)
    requires i in Pre(f)
    ensures Come(i) in Steps(f)
    decreases f
  {
    if i == f[0].id {
      assert Steps(f)[0] == Come(i);
    } else if i in Pre(f[0].kids) {
      ComesTo(f[0].kids, i);
    } else {
      ComesTo(f[1..], i);
    }
  }

  lemma EntriesCover(k: Kconf, w: State, header: seq<string>, items: seq<MenuItem>, f: Forest)
    requires ItemsInTree(k, items) && AllInMenu(k, items, f)
    ensures CoversAll(k, Entries(k, w, header, items, Steps(f)))
  {
    var order := Entries(k, w, header, items, Steps(f));
    EntriesInTree(k, w, header, items, Steps(f));
    forall s | 0 <= s < |k.syms| ensures Node(s) in order {
      assert InMenu(items, f, s);
      var j :| 0 <= j < |Pre(f)| && ItemAt(items, Pre(f)[j]) == SymNode(s);
      var i := Pre(f)[j];
      ComesTo(f, i);
      var n :| 0 <= n < |Steps(f)| && Steps(f)[n] == Come(i);
      assert order[n + 1] == Node(s);
    }
  }

  lemma HeadingQuiet(k: Kconf, title: string)
    requires Quiet(k, "# " + title)
    ensures forall j | 0 <= j < |Heading(title)| :: Quiet(k, Heading(title)[j])
  {
    assert Quiet(k, "") && Quiet(k, "#");
  }

  lemma EntriesQuiet(k: Kconf, w: State, header: seq<string>, items: seq<MenuItem>, steps: seq<Step>)
    requires ItemsInTree(k, items) && TitlesQuiet(k, header, items)
    ensures RemarksQuiet(k, Entries(k, w, header, items, steps))
  {
    var order := Entries(k, w, header, items, steps);
    EntriesInTree(k, w, header, items, steps);
    forall i, j | 0 <= i < |order| && order[i].Remark? && 0 <= j < |order[i].lines| ensures Quiet(k, order[i].lines[j]) {
      if i > 0 {
        var item := ItemAt(items, steps[i - 1].i);
        if steps[i - 1].Come? { HeadingQuiet(k, item.title); }
      }
    }
  }

  /** Writing the menu f and loading the text into a fresh instance. */
  method SaveAndReload(kc: Kconfig, header: seq<string>, items: seq<MenuItem>, f: Forest, ghost w: State) returns (copy: Kconfig)
    requires Savable(kc, w) && ItemsInTree(kc.k, items) && AllInMenu(kc.k, items, f) && TitlesQuiet(kc.k, header, items)
    modifies kc.syms, kc.choices
    ensures copy.Valid() && copy.k == kc.k
    ensures exists w' :: Live(copy, w')
    ensures forall w' | Live(copy, w') :: AllSame(kc.k, w, w') <==> NoEmptyChoice(kc.k, w)
  {
    var text := WriteConfig(kc, header, items, Steps(f), w);
    copy := Reload(kc, text);
    ghost var order := Entries(kc.k, w, header, items, Steps(f));
    EntriesCover(kc.k, w, header, items, f);
    EntriesQuiet(kc.k, w, header, items, Steps(f));
    FullTextIsFile(kc.k, kc.rank, kc.top, w, order);
    forall w' | Live(copy, w') ensures AllSame(kc.k, w, w') <==> NoEmptyChoice(kc.k, w) {
      FullRoundTrip(kc.k, kc.rank, kc.top, w, Lines(text), w');
    }
  }

  method SaveMinAndReload(kc: Kconfig, ghost w: State) returns (copy: Kconfig)
    requires Savable(kc, w) && MinReady(kc.k, w)
    modifies kc.syms, kc.choices
    ensures copy.Valid() && copy.k == kc.k
    ensures exists w' :: Live(copy, w')
    ensures forall w' | Live(copy, w') :: AllSame(kc.k, w, w') <==> NoEmptyChoice(kc.k, w)
  {
    var text := WriteMinConfig(kc, w);
    copy := Reload(kc, text);
    MinTextIsFile(kc.k, kc.rank, kc.top, w);
    forall w' | Live(copy, w') ensures AllSame(kc.k, w, w') <==> NoEmptyChoice(kc.k, w) {
      MinRoundTrip(kc.k, kc.rank, kc.top, w, Lines(text), w');
    }
  }
}
