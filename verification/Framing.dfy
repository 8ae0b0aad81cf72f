/**
  The line protocol between the client and the daemon: both ends collect bytes
  in a buffer and dispatch each complete line. However a stream is cut into
  reads, the same commands are dispatched and the same tail is kept.
*/
module Framing {
  import opened TextTools

  /** The position of the first newline, or -1. */
  function IndexOf(s: string): (pos: int)
    ensures pos == -1 ==> '\n' !in s
    ensures pos != -1 ==> 0 <= pos < |s| && s[pos] == '\n' && '\n' !in s[..pos]
  {
    if s == [] then -1
    else if s[0] == '\n' then 0
    else
      var p := IndexOf(s[1..]);
      assert s == [s[0]] + s[1..];
      assert p >= 0 ==> s[..p + 1] == [s[0]] + s[1..][..p];
      if p == -1 then -1 else p + 1
  }

  /** A stream read character by character: the lines completed so far, and what follows them. */
  datatype Scanned = Scanned(lines: seq<string>, tail: string)

  function Scan(s: string): Scanned {
    if s == "" then Scanned([], "")
    else
      var before, c := Scan(s[..|s| - 1]), s[|s| - 1];
      if c == '\n' then Scanned(before.lines + [before.tail], "")
      else Scanned(before.lines, before.tail + [c])
  }

  /** The non-empty trimmed lines, in order. */
  function NonEmpty(lines: seq<string>): seq<string> {
    if lines == [] then []
    else (if Trim(lines[0]) == "" then [] else [Trim(lines[0])]) + NonEmpty(lines[1..])
  }

  function Commands(s: string): seq<string> {
    NonEmpty(Scan(s).lines)
  }

  function Tail(s: string): string {
    Scan(s).tail
  }

  lemma {:induction false} NonEmptyAppend(a: seq<string>, b: seq<string>)
    ensures NonEmpty(a + b) == NonEmpty(a) + NonEmpty(b)
  {
    if a == [] {
      assert a + b == b;
    } else {
      NonEmptyAppend(a[1..], b);
      assert (a + b)[1..] == a[1..] + b && (a + b)[0] == a[0];
      var first := if Trim(a[0]) == "" then [] else [Trim(a[0])];
      Associate(first, NonEmpty(a[1..]), NonEmpty(b));
    }
  }

  lemma {:induction false} ScanPlain(s: string)
    requires '\n' !in s
    ensures Scan(s) == Scanned([], s)
  {
    if s != "" {
      assert s == s[..|s| - 1] + [s[|s| - 1]];
      ScanPlain(s[..|s| - 1]);
    }
  }

  lemma {:induction false} TailPlain(s: string)
    ensures '\n' !in Tail(s)
  {
    if s != "" {
      TailPlain(s[..|s| - 1]);
    }
  }

  /** Reading on from any point: only the tail so far matters. */
  lemma {:induction false} ScanAppend(a: string, b: string)
    ensures var more := Scan(Tail(a) + b);
      Scan(a + b) == Scanned(Scan(a).lines + more.lines, more.tail)
    decreases |b|
  {
    if b == "" {
      TailPlain(a);
      ScanPlain(Tail(a));
      assert a + b == a && Tail(a) + b == Tail(a);
    } else {
      var b', c := b[..|b| - 1], b[|b| - 1];
      ScanAppend(a, b');
      assert (a + b)[..|a + b| - 1] == a + b' && (a + b)[|a + b| - 1] == c;
      var t := Tail(a) + b;
      assert t[..|t| - 1] == Tail(a) + b' && t[|t| - 1] == c;
      var m := Scan(Tail(a) + b');
      assert Scan(a).lines + m.lines + [m.tail] == Scan(a).lines + (m.lines + [m.tail]);
    }
  }

  /** Reading more bytes continues from the tail. */
  lemma CommandsAppend(a: string, b: string)
    ensures Commands(a + b) == Commands(a) + Commands(Tail(a) + b)
    ensures Tail(a + b) == Tail(Tail(a) + b)
  {
    ScanAppend(a, b);
    NonEmptyAppend(Scan(a).lines, Scan(Tail(a) + b).lines);
  }

  /** A complete line at the front is one command, if it is not blank. */
  lemma CommandsLine(line: string, rest: string)
    requires '\n' !in line
    ensures var command := Trim(line);
      && Commands(line + "\n" + rest) == (if command == "" then [] else [command]) + Commands(rest)
      && Tail(line + "\n" + rest) == Tail(rest)
  {
    var a := line + "\n";
    ScanPlain(line);
    assert a[..|a| - 1] == line;
    assert Scan(a) == Scanned([line], "");
    assert Tail(a) + rest == rest;
    assert NonEmpty([line][1..]) == [];
    CommandsAppend(a, rest);
  }

  /** The next line is dispatched and the rest of the buffer remains. */
  lemma CommandsStep(s: string, more: string)
    requires IndexOf(s) != -1
    ensures var p := IndexOf(s);
      var command := Trim(s[..p]);
      && Commands(s + more) == (if command == "" then [] else [command]) + Commands(s[p + 1..] + more)
      && Tail(s + more) == Tail(s[p + 1..] + more)
  {
    var p := IndexOf(s);
    assert s + more == s[..p] + "\n" + (s[p + 1..] + more);
    CommandsLine(s[..p], s[p + 1..] + more);
  }

  lemma CommandsNone(s: string)
    requires IndexOf(s) == -1
    ensures Commands(s) == [] && Tail(s) == s
  {
    ScanPlain(s);
  }

  /** The client end. */
  class Client {
    var buffer: string
    var dispatched: seq<string>

    constructor ()
      ensures buffer == "" && dispatched == []
    {
      buffer, dispatched := "", [];
    }

    method ReadData(input: string)
      modifies this
      ensures dispatched == old(dispatched) + Commands(old(buffer) + input)
      ensures buffer == Tail(old(buffer) + input)
    {
      buffer := buffer + input;
      while true
        invariant dispatched + Commands(buffer) == old(dispatched) + Commands(old(buffer) + input)
        invariant Tail(buffer) == Tail(old(buffer) + input)
        decreases |buffer|
      {
        var pos := IndexOf(buffer);
        if pos == -1 {
          CommandsNone(buffer);
          break;
        }
        CommandsStep(buffer, "");
        assert buffer + "" == buffer && buffer[pos + 1..] + "" == buffer[pos + 1..];
        var line := buffer[..pos];
        buffer := buffer[pos + 1..];
        var command := Trim(line);
        if command == "" {
          continue;
        }
        assert dispatched + ([command] + Commands(buffer)) == (dispatched + [command]) + Commands(buffer);
        dispatched := dispatched + [command];
      }
    }
  }

  function Flatten(chunks: seq<string>): string {
    if chunks == [] then "" else chunks[0] + Flatten(chunks[1..])
  }

  predicate NoneEmpty(chunks: seq<string>) {
    forall i | 0 <= i < |chunks| :: chunks[i] != ""
  }

  /** The daemon end: the loop asks the socket for more whenever no line is complete. */
  class Daemon {
    var buffer: string
    var pending: seq<string>      // what the next reads of the socket return
    var dispatched: seq<string>

    constructor ()
      ensures buffer == "" && pending == [] && dispatched == []
    {
      buffer, pending, dispatched := "", [], [];
    }

    method ReadAll() returns (input: string)
      modifies this`pending
      ensures old(pending) == [] ==> input == "" && pending == []
      ensures old(pending) != [] ==> input == old(pending)[0] && pending == old(pending)[1..]
    {
      input := "";
      if pending != [] {
        input, pending := pending[0], pending[1..];
      }
    }

    method ReadData()
      requires NoneEmpty(pending)
      modifies this
      ensures pending == []
      ensures dispatched == old(dispatched) + Commands(old(buffer) + Flatten(old(pending)))
      ensures buffer == Tail(old(buffer) + Flatten(old(pending)))
    {
      ghost var stream := buffer + Flatten(pending);
      while true
        invariant NoneEmpty(pending)
        invariant dispatched + Commands(buffer + Flatten(pending)) == old(dispatched) + Commands(stream)
        invariant Tail(buffer + Flatten(pending)) == Tail(stream)
        decreases |Flatten(pending)|, |buffer|
      {
        var pos := IndexOf(buffer);
        if pos == -1 {
          ghost var before := buffer + Flatten(pending);
          var input := ReadAll();
          if input == "" {
            assert pending == [] && before == buffer + Flatten(pending) == buffer;
            CommandsNone(buffer);
            break;
          }
          buffer := buffer + input;
          assert buffer + Flatten(pending) == before;
          continue;
        }
        CommandsStep(buffer, Flatten(pending));
        var line := buffer[..pos];
        buffer := buffer[pos + 1..];
        var command := Trim(line);
        if command == "" {
          continue;
        }
        dispatched := dispatched + [command];
      }
    }
  }

  /** What successive reads of either end dispatch and keep. */
  function Feed(buffer: string, chunks: seq<string>): (seq<string>, string)
    decreases |chunks|
  {
    if chunks == [] then ([], buffer)
    else
      var (more, kept) := Feed(Tail(buffer + chunks[0]), chunks[1..]);
      (Commands(buffer + chunks[0]) + more, kept)
  }

  /** However the stream is cut, the commands and the tail are those of the whole stream. */
  lemma {:induction false} ChunkingIrrelevant(buffer: string, chunks: seq<string>)
    requires '\n' !in buffer
    ensures Feed(buffer, chunks) == (Commands(buffer + Flatten(chunks)), Tail(buffer + Flatten(chunks)))
    decreases |chunks|
  {
    if chunks == [] {
      assert buffer + Flatten(chunks) == buffer;
      ScanPlain(buffer);
    } else {
      var first, rest := buffer + chunks[0], Flatten(chunks[1..]);
      assert buffer + Flatten(chunks) == first + rest;
      TailPlain(first);
      CommandsAppend(first, rest);
      ChunkingIrrelevant(Tail(first), chunks[1..]);
    }
  }

  /** Compact JSON: one line, with a visible character at either end. */
  predicate Message(m: string) {
    m != "" && '\n' !in m && !IsSpace(m[0]) && !IsSpace(m[|m| - 1])
  }

  /** The bytes an end writes: each message and a newline. */
  function Written(ms: seq<string>): string {
    if ms == [] then "" else ms[0] + "\n" + Written(ms[1..])
  }

  lemma {:induction false} WrittenCommands(ms: seq<string>)
    requires forall m <- ms :: Message(m)
    ensures Commands(Written(ms)) == ms && Tail(Written(ms)) == ""
  {
    if ms != [] {
      assert Message(ms[0]) && Trim(ms[0]) == ms[0];
      WrittenCommands(ms[1..]);
      CommandsLine(ms[0], Written(ms[1..]));
    }
  }

  /** Every message written with its newline arrives as exactly one command, whatever the cuts. */
  lemma MessagesArrive(ms: seq<string>, chunks: seq<string>)
    requires forall m <- ms :: Message(m)
    requires Flatten(chunks) == Written(ms)
    ensures Feed("", chunks) == (ms, "")
  {
    WrittenCommands(ms);
    ChunkingIrrelevant("", chunks);
    assert "" + Flatten(chunks) == Written(ms);
  }

  // ----- A new connection over the buffer of the old one -----

  lemma {:induction false} TrimLeftBlank(t: string, m: string)
    requires Blank(t) && m != "" && !IsSpace(m[0])
    ensures TrimLeft(t + m) == m
  {
    if t == "" {
      assert t + m == m;
    } else {
      assert t[0] in t && (t + m)[1..] == t[1..] + m;
      TrimLeftBlank(t[1..], m);
    }
  }

  /** What is kept in front of a message vanishes exactly when it is blank. */
  lemma TrimFront(t: string, m: string)
    requires Message(m)
    ensures Trim(t + m) != "" && (Trim(t + m) == m <==> Blank(t))
  {
    var s := t + m;
    var left, right := TrimExact(s);
    assert s[|s| - 1] == m[|m| - 1];
    if right != "" {
      BlankEnd(left + Trim(s), right);
    }
    assert !Blank(s) by {
      assert s[|s| - 1] in s;
    }
    assert s == left + Trim(s) && left == s[..|left|] && t == s[..|t|];
    if Blank(t) {
      TrimLeftBlank(t, m);
    }
  }

  lemma BlankEnd(a: string, b: string)
    requires Blank(b) && b != ""
    ensures IsSpace((a + b)[|a + b| - 1])
  {
    assert b[|b| - 1] in b;
  }

  /**
    The buffer survives a reconnection. Only the first message of the new
    connection can suffer, and it arrives as written if and only if what the
    old connection left behind is blank.
  */
  lemma ReconnectExactly(left: string, ms: seq<string>, chunks: seq<string>)
    requires '\n' !in left && ms != [] && (forall m <- ms :: Message(m)) && Flatten(chunks) == Written(ms)
    ensures Feed(left, chunks) == ([Trim(left + ms[0])] + ms[1..], "")
    ensures Feed(left, chunks).0 == ms <==> Blank(left)
  {
    assert ms[0] in ms;
    ChunkingIrrelevant(left, chunks);
    assert left + Written(ms) == (left + ms[0]) + "\n" + Written(ms[1..]);
    CommandsLine(left + ms[0], Written(ms[1..]));
    WrittenCommands(ms[1..]);
    TrimFront(left, ms[0]);
    assert ms == [ms[0]] + ms[1..];
  }
}
