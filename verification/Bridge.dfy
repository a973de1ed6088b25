/** The event log and the bridge that tails it into the store with a durable cursor. */
module Bridge {
  import opened Characters
  import opened Wrappers
  import opened Telemetry

  /** What the bridge stores of an event: its fields. */
  type Record = seq<Field>

  const CRLF := "\r\n"

  /** The append-only event file. */
  class EventLog {
    var content: string

    constructor ()
      ensures content == ""
    {
      content := "";
    }

    /** Appends one event line, unless the file could not be opened. */
    method NeoFLTelEvent(e: Event, opens: bool) returns (written: bool)
      modifies this
      ensures written <==> opens
      ensures content == if opens then old(content) + Line(e) + CRLF else old(content)
    {
      if !opens {
        return false;
      }
      content := content + (Line(e) + CRLF);
      written := true;
    }
  }

  // ---------------------------------------------------------------- reading lines

  predicate Terminator(c: char) { c == '\n' || c == '\r' }

  /** Characters before the first line terminator. */
  function LineLength(s: string): (n: nat)
    ensures n <= |s| && (n < |s| ==> Terminator(s[n]))
    ensures forall i :: 0 <= i < n ==> !Terminator(s[i])
  {
    if s == [] || Terminator(s[0]) then 0 else 1 + LineLength(s[1..])
  }

  /** One call of readline in universal-newline mode. A line is ended by LF, by CR LF, or by a CR that no
      LF follows; the position after such a bare CR is no plain byte offset. */
  datatype Read = Partial | Complete(text: string, used: nat, bare: bool)

  function ReadLine(s: string): (r: Read)
    ensures r.Complete? ==> 0 < r.used <= |s|
  {
    var n := LineLength(s);
    if n == |s| then Partial
    else if s[n] == '\n' then Complete(s[..n], n + 1, false)
    else if n + 1 < |s| && s[n + 1] == '\n' then Complete(s[..n], n + 2, false)
    else Complete(s[..n], n + 1, true)
  }

  /** The records of one line: none for a blank or malformed one. */
  function Records(text: string, parse: string -> Option<Record>): seq<Record> {
    var line := Strip(text);
    if line == [] then [] else match parse(line)
      case None => []
      case Some(r) => [r]
  }

  /** All complete lines at the front of the unread text: their records, the characters used, and
      whether the last of them ended in a bare CR. */
  datatype Batch = Batch(records: seq<Record>, used: nat, bare: bool)

  function ReadAll(s: string, parse: string -> Option<Record>, bare: bool): (b: Batch)
    ensures b.used <= |s|
    decreases |s|
  {
    match ReadLine(s)
    case Partial => Batch([], 0, bare)
    case Complete(text, used, b) =>
      var rest := ReadAll(s[used..], parse, b);
      Batch(Records(text, parse) + rest.records, used + rest.used, rest.bare)
  }

  lemma ReadAllStep(content: string, offset: nat, parse: string -> Option<Record>, bare: bool)
    requires offset <= |content| && ReadLine(content[offset..]).Complete?
    ensures var line := ReadLine(content[offset..]);
      var rest := ReadAll(content[offset + line.used..], parse, line.bare);
      ReadAll(content[offset..], parse, bare) == Batch(Records(line.text, parse) + rest.records, line.used + rest.used, rest.bare)
  {
    hide ReadLine, Records;
    var line := ReadLine(content[offset..]);
    assert content[offset..][line.used..] == content[offset + line.used..];
  }

  lemma ReadAllOf(s: string, parse: string -> Option<Record>, bare: bool)
    requires ReadLine(s).Complete?
    ensures var line := ReadLine(s);
      var rest := ReadAll(s[line.used..], parse, line.bare);
      ReadAll(s, parse, bare) == Batch(Records(line.text, parse) + rest.records, line.used + rest.used, rest.bare)
  {
    hide ReadLine, Records;
  }

  lemma ReadAllDone(s: string, parse: string -> Option<Record>, bare: bool)
    requires ReadLine(s).Partial?
    ensures ReadAll(s, parse, bare) == Batch([], 0, bare)
  {
  }

  lemma EmptyRead(s: string, parse: string -> Option<Record>)
    requires s == ""
    ensures ReadAll(s, parse, false) == Batch([], 0, false)
  {
  }

  // ---------------------------------------------------------------- the bridge

  /** Where the next poll starts: the cursor, or the beginning when the file shrank. */
  function StartOf(log: string, cursor: nat): (o: nat)
    ensures o <= |log|
  {
    if |log| < cursor then 0 else cursor
  }

  /** What a poll reads from a log. */
  function Unread(log: string, cursor: nat, parse: string -> Option<Record>): Batch {
    ReadAll(log[StartOf(log, cursor)..], parse, false)
  }

  class Bridge {
    const parse: string -> Option<Record>
    var store: seq<Record>
    var cursor: nat

    constructor (p: string -> Option<Record>)
      ensures parse == p && store == [] && cursor == 0
    {
      parse, store, cursor := p, [], 0;
    }

    /** One poll of the log, absent when there is no file. None stands for the exception raised when the
        position reached cannot be kept as a cursor; the events read so far are stored all the same. */
    method PollEvents(log: Option<string>) returns (ingested: Option<nat>)
      modifies this
      ensures log.None? ==> ingested == Some(0) && store == old(store) && cursor == old(cursor)
      ensures log.Some? ==>
        var b := Unread(log.value, old(cursor), parse);
        var idle := |log.value| == StartOf(log.value, old(cursor));
        && store == old(store) + b.records
        && cursor == (if idle || b.bare then old(cursor) else StartOf(log.value, old(cursor)) + b.used)
        && ingested == (if b.bare then None else Some(|b.records|))
    {
      hide ReadLine, ReadAll, Strip;
      if log.None? {
        return Some(0);
      }
      var content := log.value;
      var offset := cursor;
      var size := |content|;
      if size < offset {
        offset := 0;
      }
      if size == offset {
        EmptyRead(content[offset..], parse);
        return Some(0);
      }
      ghost var start := offset;
      ghost var taken: seq<Record> := [];
      var plain := true;
      var count := 0;
      var done := false;
      while !done
        invariant offset <= |content| && cursor == old(cursor)
        invariant done ==> ReadLine(content[offset..]).Partial?
        invariant store == old(store) + taken && count == |taken|
        invariant Continues(content, start, offset, taken, !plain)
        decreases |content| - offset, !done
      {
        var line := ReadLine(content[offset..]);
        if line.Partial? {
          done := true;
        } else {
          Advance(content, start, offset, taken, !plain);
          taken := taken + Records(line.text, parse);
          offset := offset + line.used;
          plain := !line.bare;
          var text := Strip(line.text);
          if text != [] {
            var record := parse(text);
            if record.Some? {
              store := store + [record.value];
              count := count + 1;
            }
          }
        }
      }
      ReadAllDone(content[offset..], parse, !plain);
      if !plain {
        return None;
      }
      cursor := offset;
      return Some(count);
    }

    /** Reading from `start` is what was taken so far plus reading from `offset`. */
    ghost predicate Continues(content: string, start: nat, offset: nat, taken: seq<Record>, bare: bool) {
      && start <= offset <= |content|
      && var all, rest := ReadAll(content[start..], parse, false), ReadAll(content[offset..], parse, bare);
      && all.records == taken + rest.records
      && start + all.used == offset + rest.used
      && all.bare == rest.bare
    }

    lemma Advance(content: string, start: nat, offset: nat, taken: seq<Record>, bare: bool)
      requires Continues(content, start, offset, taken, bare) && ReadLine(content[offset..]).Complete?
      ensures var line := ReadLine(content[offset..]);
        Continues(content, start, offset + line.used, taken + Records(line.text, parse), line.bare)
    {
      hide ReadLine, ReadAll, Records;
      ReadAllStep(content, offset, parse, bare);
      var line, rest := ReadLine(content[offset..]), ReadAll(content[offset + ReadLine(content[offset..]).used..], parse, ReadLine(content[offset..]).bare);
      assert taken + (Records(line.text, parse) + rest.records) == taken + Records(line.text, parse) + rest.records;
    }
  }

  // ---------------------------------------------------------------- a log in the making

  /** The bytes of a sequence of written events. */
  function Log(events: seq<Event>): string {
    if events == [] then [] else Line(events[0]) + CRLF + Log(events[1..])
  }

  function Stored(e: Event): Record { SanitizeAll(e.Fields()) }

  function StoredAll(events: seq<Event>): seq<Record> {
    seq(|events|, i requires 0 <= i < |events| => Stored(events[i]))
  }

  predicate AllPrinted(events: seq<Event>) { forall i :: 0 <= i < |events| ==> events[i].Printed() }

  lemma {:induction false} LogConcat(a: seq<Event>, b: seq<Event>)
    ensures Log(a + b) == Log(a) + Log(b)
  {
    if a == [] {
      assert a + b == b;
    } else {
      assert (a + b)[1..] == a[1..] + b;
      LogConcat(a[1..], b);
    }
  }

  lemma {:induction false} LineLengthIs(s: string, n: nat)
    requires n < |s| && Terminator(s[n]) && NoControl(s[..n])
    ensures LineLength(s) == n
  {
    assert forall i :: 0 <= i < n ==> s[..n][i] == s[i];
    assert LineLength(s) <= n;
  }

  lemma {:induction false} NoTerminator(s: string)
    requires NoControl(s)
    ensures LineLength(s) == |s|
  {
  }

  /** An event line comes out of the reader as one record. */
  lemma LineBecomesRecord(e: Event)
    requires e.Printed()
    ensures Records(Line(e), ReadObject) == [Stored(e)]
  {
    hide Line, ReadObject, SanitizeAll;
    LineShape(e);
    LineRoundTrip(e);
    assert Strip(Line(e)) == Line(e);
  }

  /** The reader's result on the first n characters of a log: whole lines until the text runs out, and a
      bare CR exactly when the cut falls between the two characters of a terminator. */
  function Expected(events: seq<Event>, n: nat, bare: bool): Batch
    decreases |events|
  {
    if events == [] || n <= |Line(events[0])| then Batch([], 0, bare)
    else
      var length := |Line(events[0])|;
      if n == length + 1 then Batch([Stored(events[0])], n, true)
      else
        var rest := Expected(events[1..], n - length - 2, false);
        Batch([Stored(events[0])] + rest.records, length + 2 + rest.used, rest.bare)
  }

  lemma CutLine(e: Event, n: nat)
    requires e.Printed() && n <= |Line(e)|
    ensures NoControl(Line(e)[..n])
  {
    hide Line;
    LineShape(e);
  }

  lemma LineIsClean(e: Event)
    requires e.Printed()
    ensures NoControl(Line(e))
  {
    hide Line;
    LineShape(e);
  }

  lemma CutNothing()
    ensures NoControl("")
  {
  }

  lemma ReturnEnds()
    ensures Terminator('\r') && Terminator('\n')
  {
  }

  /** A log cut inside its first line, or right behind it. */
  lemma ReadsCut(line: string, rest: string, n: nat)
    requires n <= |line| && NoControl(line[..n])
    ensures var s := (line + CRLF + rest)[..n];
      ReadAll(s, ReadObject, true) == Batch([], 0, true) && ReadAll(s, ReadObject, false) == Batch([], 0, false)
  {
    hide NoControl, ReadObject, Records;
    assert (line + CRLF + rest)[..n] == line[..n];
    NoTerminator(line[..n]);
  }

  /** A log cut between the CR and the LF of its first line. */
  lemma ReadsBare(line: string, rest: string, bare: bool)
    requires NoControl(line)
    ensures var s := (line + CRLF + rest)[..|line| + 1];
      ReadAll(s, ReadObject, bare) == Batch(Records(line, ReadObject), |s|, true)
  {
    hide NoControl, ReadObject, Records, LineLength, Terminator, ReadAll;
    var s := (line + CRLF + rest)[..|line| + 1];
    assert s[..|line|] == line && s[|line|] == '\r';
    ReturnEnds();
    LineLengthIs(s, |line|);
    assert ReadLine(s) == Complete(line, |s|, true);
    assert s[|s|..] == "";
    CutNothing();
    NoTerminator("");
    ReadAllOf(s, ReadObject, bare);
    ReadAllDone("", ReadObject, true);
  }

  /** A log that holds its first line with its terminator. */
  lemma ReadsWhole(line: string, rest: string, bare: bool)
    requires NoControl(line)
    ensures var s, later := line + CRLF + rest, ReadAll(rest, ReadObject, false);
      ReadAll(s, ReadObject, bare) == Batch(Records(line, ReadObject) + later.records, |line| + 2 + later.used, later.bare)
  {
    hide NoControl, ReadObject, Records, LineLength, Terminator, ReadAll;
    var s := line + CRLF + rest;
    assert s[..|line|] == line && s[|line|] == '\r' && s[|line| + 1] == '\n';
    ReturnEnds();
    LineLengthIs(s, |line|);
    assert ReadLine(s) == Complete(line, |line| + 2, false);
    assert s[|line| + 2..] == rest;
    ReadAllOf(s, ReadObject, bare);
  }

  lemma {:induction false} ReadsExpected(events: seq<Event>, n: nat, bare: bool)
    requires AllPrinted(events) && n <= |Log(events)|
    ensures ReadAll(Log(events)[..n], ReadObject, bare) == Expected(events, n, bare)
    decreases |events|
  {
    hide Line, Records, Stored, ReadObject, NoControl, ReadAll, Event.Printed;
    if events == [] {
      CutNothing();
      NoTerminator("");
      ReadAllDone("", ReadObject, bare);
    } else {
      var line, rest := Line(events[0]), Log(events[1..]);
      LineIsClean(events[0]);
      assert Log(events) == line + CRLF + rest;
      if n <= |line| {
        CutLine(events[0], n);
        ReadsCut(line, rest, n);
      } else {
        LineBecomesRecord(events[0]);
        if n == |line| + 1 {
          ReadsBare(line, rest, bare);
        } else {
          var m := n - |line| - 2;
          assert Log(events)[..n] == line + CRLF + rest[..m];
          ReadsWhole(line, rest[..m], bare);
          ReadsExpected(events[1..], m, false);
        }
      }
    }
  }

  lemma PrefixCons(events: seq<Event>, m: nat)
    requires 0 < m <= |events|
    ensures |Log(events[..m])| == |Line(events[0])| + 2 + |Log(events[1..][..m - 1])|
    ensures StoredAll(events[..m]) == [Stored(events[0])] + StoredAll(events[1..][..m - 1])
  {
    hide Line, Stored;
    assert events[..m][1..] == events[1..][..m - 1];
  }

  /** What a batch contains, of a log cut after n characters: the first m events in order. Without a
      bare CR it ends after the last whole line, with one it ends a character short of a line end. */
  predicate BatchShape(b: Batch, events: seq<Event>, n: nat, bare: bool) {
    var m := |b.records|;
    && m <= |events| && b.records == StoredAll(events[..m])
    && (m == 0 ==> b.bare == bare && b.used == 0)
    && (m > 0 && b.bare ==> b.used == n && |Log(events[..m])| == n + 1)
    && (m > 0 && !b.bare ==> b.used == |Log(events[..m])| <= n)
    && (m < |events| && !b.bare ==> n <= |Log(events[..m])| + |Line(events[m])|)
  }

  lemma {:induction false} ExpectedShape(events: seq<Event>, n: nat, bare: bool)
    requires n <= |Log(events)|
    ensures BatchShape(Expected(events, n, bare), events, n, bare)
    decreases |events|
  {
    hide Line, Stored, StoredAll, Log;
    var b := Expected(events, n, bare);
    EmptyPrefix(events);
    if events != [] && n > |Line(events[0])| {
      PrefixCons(events, |events|);
      assert events[..|events|] == events && events[1..][..|events| - 1] == events[1..];
      EmptyPrefix(events[1..]);
      if n > |Line(events[0])| + 1 {
        ExpectedShape(events[1..], n - |Line(events[0])| - 2, false);
      }
      PrefixCons(events, |b.records|);
    }
  }

  lemma EmptyPrefix(events: seq<Event>)
    ensures StoredAll(events[..0]) == [] && Log(events[..0]) == ""
  {
  }
}
