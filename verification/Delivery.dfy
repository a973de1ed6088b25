/** Delivery of the event log over whole runs: growing in arbitrary pieces, polled at arbitrary
    moments, with restarts and crashes in between. */
module Delivery {
  import opened Wrappers
  import opened Telemetry
  import opened Bridge

  /** What survives a restart, and how much of the log the reader can see so far. */
  datatype Tail = Tail(visible: nat, store: seq<Record>, cursor: nat)

  /** The log becomes visible up to a position, in pieces of any size; the bridge polls; its process dies
      after storing some of a batch; or it restarts. */
  datatype Step = Grow(visible: nat) | Poll | Crash(after: nat) | Restart

  /** The file at this moment. */
  function File(events: seq<Event>, t: Tail): string
    requires t.visible <= |Log(events)|
  {
    Log(events)[..t.visible]
  }

  function BatchOf(events: seq<Event>, t: Tail): Batch
    requires t.visible <= |Log(events)|
  {
    Unread(File(events, t), t.cursor, ReadObject)
  }

  /** The records a crash had time to store. */
  function CrashRecords(b: Batch, after: nat): seq<Record> {
    if after < |b.records| then b.records[..after] else b.records
  }

  predicate Legal(events: seq<Event>, t: Tail, step: Step) {
    t.visible <= |Log(events)| && (step.Grow? ==> t.visible <= step.visible <= |Log(events)|)
  }

  /** One step. A poll does what the bridge's poll does; one that raises keeps the stored records but
      not the cursor, and so does a crash. */
  function Apply(events: seq<Event>, t: Tail, step: Step): Tail
    requires Legal(events, t, step)
  {
    match step
    case Grow(v) => t.(visible := v)
    case Poll =>
      var b := BatchOf(events, t);
      var start := StartOf(File(events, t), t.cursor);
      t.(store := t.store + b.records, cursor := if t.visible == start || b.bare then t.cursor else start + b.used)
    case Crash(k) => t.(store := t.store + CrashRecords(BatchOf(events, t), k))
    case Restart => t
  }

  /** Records a step stores without advancing the cursor past them. */
  function Wasted(events: seq<Event>, t: Tail, step: Step): nat
    requires Legal(events, t, step)
  {
    match step
    case Grow(_) => 0
    case Poll => if BatchOf(events, t).bare then |BatchOf(events, t).records| else 0
    case Crash(k) => |CrashRecords(BatchOf(events, t), k)|
    case Restart => 0
  }

  predicate EndsInCr(s: string) { s != [] && s[|s| - 1] == '\r' }

  /** A step that loses no progress: a poll of a log that does not end in a bare CR, or a crash before
      anything was stored. */
  predicate Clean(events: seq<Event>, t: Tail, step: Step)
    requires Legal(events, t, step)
  {
    match step
    case Poll => !EndsInCr(File(events, t))
    case Crash(k) => CrashRecords(BatchOf(events, t), k) == []
    case _ => true
  }

  // ---------------------------------------------------------------- one poll

  lemma LogAround(events: seq<Event>, j: nat)
    requires j < |events|
    ensures Log(events) == Log(events[..j]) + (Line(events[j]) + CRLF + Log(events[j + 1..]))
  {
    hide Line;
    assert events == events[..j] + events[j..];
    LogConcat(events[..j], events[j..]);
    assert events[j..][1..] == events[j + 1..];
  }

  lemma LogPrefix(events: seq<Event>, j: nat)
    requires j <= |events|
    ensures Log(events) == Log(events[..j]) + Log(events[j..])
  {
    assert events == events[..j] + events[j..];
    LogConcat(events[..j], events[j..]);
  }

  /** With the cursor at the start of the j-th event line, a poll reads the whole lines that follow. */
  lemma BatchFrom(events: seq<Event>, t: Tail, j: nat)
    requires AllPrinted(events) && j <= |events| && t.cursor == |Log(events[..j])| <= t.visible <= |Log(events)|
    ensures StartOf(File(events, t), t.cursor) == t.cursor
    ensures BatchShape(BatchOf(events, t), events[j..], t.visible - t.cursor, false)
  {
    hide Line, StoredAll, Log, Expected, ReadAll, BatchShape;
    LogPrefix(events, j);
    var rest := events[j..];
    assert File(events, t)[t.cursor..] == Log(rest)[..t.visible - t.cursor];
    ReadsExpected(rest, t.visible - t.cursor, false);
    ExpectedShape(rest, t.visible - t.cursor, false);
  }

  /** The poll cannot keep its position exactly when the visible log ends in a bare CR. */
  lemma BareExactly(events: seq<Event>, t: Tail, j: nat)
    requires AllPrinted(events) && j <= |events| && t.cursor == |Log(events[..j])| <= t.visible <= |Log(events)|
    ensures BatchOf(events, t).bare <==> EndsInCr(File(events, t))
    ensures BatchOf(events, t).bare ==> BatchOf(events, t).records != []
  {
    hide Line, StoredAll, Log, ReadAll, BatchOf;
    BatchFrom(events, t, j);
    var b := BatchOf(events, t);
    var m := |b.records|;
    Prefixes(events, j, m);
    var whole := Log(events[..j + m]);
    if b.bare {
      LogAroundEnd(events, j + m);
      assert t.visible == |whole| - 1;
      assert Log(events)[|whole| - 2..|whole|][0] == '\r';
    } else {
      LogAroundEnd(events, j + m);
      assert j + m == |events| ==> events[..j + m] == events;
      if t.visible > |whole| {
        LogAround(events, j + m);
        LineShape(events[j + m]);
        var x := t.visible - 1;
        assert Log(events)[x] == Line(events[j + m])[x - |whole|];
        assert File(events, t)[x] == Log(events)[x] >= ' ';
      } else if t.visible > 0 {
        assert t.visible == |whole|;
        assert Log(events)[t.visible - 2..t.visible][1] == '\n';
        assert File(events, t)[t.visible - 1] == '\n';
      }
    }
  }

  lemma Prefixes(events: seq<Event>, j: nat, m: nat)
    requires j + m <= |events|
    ensures Log(events[..j + m]) == Log(events[..j]) + Log(events[j..][..m])
    ensures StoredAll(events[..j + m]) == StoredAll(events[..j]) + StoredAll(events[j..][..m])
  {
    hide Line, Stored;
    assert events[..j + m] == events[..j] + events[j..][..m];
    LogConcat(events[..j], events[j..][..m]);
  }

  /** Every whole prefix of the log but the empty one ends in CR LF. */
  lemma LogAroundEnd(events: seq<Event>, j: nat)
    requires j <= |events|
    ensures Log(events[..j]) <= Log(events)
    ensures j > 0 ==> var n := |Log(events[..j])|; n >= 2 && Log(events)[n - 2..n] == CRLF
  {
    hide Line;
    LogPrefix(events, j);
    if j > 0 {
      LogAround(events[..j], j - 1);
      assert events[..j][j..] == [];
    }
  }

  // ---------------------------------------------------------------- whole runs

  /** a arises from b by leaving elements out. */
  predicate Subsequence<T(==)>(a: seq<T>, b: seq<T>)
    decreases |b|
  {
    a == [] || (b != [] && ((a[|a| - 1] == b[|b| - 1] && Subsequence(a[..|a| - 1], b[..|b| - 1])) || Subsequence(a, b[..|b| - 1])))
  }

  lemma {:induction false} SubsequenceGrows<T>(a: seq<T>, b: seq<T>, x: T)
    requires Subsequence(a, b)
    ensures Subsequence(a, b + [x]) && Subsequence(a + [x], b + [x])
  {
    assert (b + [x])[..|b|] == b && (a + [x])[..|a|] == a;
  }

  lemma LastApart<T>(b: seq<T>, c: seq<T>)
    requires c != []
    ensures b + c == (b + c[..|c| - 1]) + [c[|c| - 1]]
  {
  }

  lemma {:induction false} SubsequenceExtends<T>(a: seq<T>, b: seq<T>, c: seq<T>)
    requires Subsequence(a, b)
    ensures Subsequence(a, b + c) && Subsequence(a + c, b + c)
    decreases |c|
  {
    hide Subsequence;
    if c == [] {
      assert b + c == b && a + c == a;
    } else {
      var d, x := c[..|c| - 1], c[|c| - 1];
      SubsequenceExtends(a, b, d);
      SubsequenceGrows(a, b + d, x);
      SubsequenceGrows(a + d, b + d, x);
      LastApart(a, c);
      LastApart(b, c);
    }
  }

  /** The bridge stands at the start of the j-th event line, everything before it is in the store, in
      order, and the store holds `wasted` records more. */
  predicate At(events: seq<Event>, t: Tail, j: nat, wasted: nat) {
    && j <= |events| && t.cursor == |Log(events[..j])| <= t.visible <= |Log(events)|
    && Subsequence(StoredAll(events[..j]), t.store)
    && |t.store| == j + wasted
    && (wasted == 0 ==> t.store == StoredAll(events[..j]))
  }

  lemma StoreKeeps(events: seq<Event>, t: Tail, j: nat, wasted: nat, more: seq<Record>)
    requires At(events, t, j, wasted)
    ensures At(events, t.(store := t.store + more), j, wasted + |more|)
  {
    hide Log, StoredAll;
    SubsequenceExtends(StoredAll(events[..j]), t.store, more);
  }

  /** Whatever a step does, the bridge stands at a line start again; a poll that can keep its position
      stands at the last whole line the log shows. */
  lemma StepDelivers(events: seq<Event>, t: Tail, step: Step, j: nat, wasted: nat) returns (k: nat)
    requires AllPrinted(events) && At(events, t, j, wasted) && Legal(events, t, step)
    ensures j <= k && At(events, Apply(events, t, step), k, wasted + Wasted(events, t, step))
    ensures step.Poll? && !EndsInCr(File(events, t)) && k < |events| ==> t.visible <= |Log(events[..k])| + |Line(events[k])|
    ensures Wasted(events, t, step) == 0 <==> Clean(events, t, step)
  {
    hide Line, StoredAll, Log, Subsequence, BatchOf, ReadAll, EndsInCr;
    k := j;
    match step
    case Grow(v) =>
    case Restart =>
    case Crash(after) =>
      StoreKeeps(events, t, j, wasted, CrashRecords(BatchOf(events, t), after));
    case Poll =>
      BatchFrom(events, t, j);
      BareExactly(events, t, j);
      var b := BatchOf(events, t);
      if b.bare {
        StoreKeeps(events, t, j, wasted, b.records);
      } else {
        var m := |b.records|;
        k := j + m;
        Prefixes(events, j, m);
        EmptyPrefix(events[j..]);
        SubsequenceExtends(StoredAll(events[..j]), t.store, b.records);
        assert m < |events[j..]| ==> events[j..][m] == events[k];
        StoredLength(events[..k]);
      }
  }

  lemma StoredLength(events: seq<Event>)
    ensures |StoredAll(events)| == |events|
  {
  }

  function Run(events: seq<Event>, steps: seq<Step>): Option<Tail>
    decreases |steps|
  {
    if steps == [] then Some(Tail(0, [], 0))
    else match Run(events, steps[..|steps| - 1])
      case None => None
      case Some(t) =>
        var step := steps[|steps| - 1];
        if Legal(events, t, step) then Some(Apply(events, t, step)) else None
  }

  /** Every step of the run was clean. */
  predicate CleanRun(events: seq<Event>, steps: seq<Step>)
    requires Run(events, steps).Some?
    decreases |steps|
  {
    steps == [] || (CleanRun(events, steps[..|steps| - 1])
                    && Clean(events, Run(events, steps[..|steps| - 1]).value, steps[|steps| - 1]))
  }

  lemma {:induction false} RunDelivers(events: seq<Event>, steps: seq<Step>) returns (j: nat, wasted: nat)
    requires AllPrinted(events) && Run(events, steps).Some?
    ensures At(events, Run(events, steps).value, j, wasted)
    ensures wasted == 0 <==> CleanRun(events, steps)
    decreases |steps|
  {
    hide Line, StoredAll, Log, Apply, Wasted, Clean, Subsequence, AllPrinted;
    if steps == [] {
      j, wasted := 0, 0;
      EmptyPrefix(events);
      EmptySubsequence(Run(events, []).value.store);
    } else {
      var front, step := steps[..|steps| - 1], steps[|steps| - 1];
      var i, w := RunDelivers(events, front);
      var t := Run(events, front).value;
      j := StepDelivers(events, t, step, i, w);
      wasted := w + Wasted(events, t, step);
    }
  }

  lemma EmptySubsequence(b: seq<Record>)
    ensures Subsequence([], b)
  {
  }

  /** Over every run without rotation, in any pieces and with any crashes: the cursor stands at a line
      start, and every event before it is in the store, in order. Each is there exactly once if and
      only if no poll met a log that ended in a bare CR and no crash came after a stored record. */
  lemma DeliveredInOrder(events: seq<Event>, steps: seq<Step>) returns (j: nat)
    requires AllPrinted(events) && Run(events, steps).Some?
    ensures var t := Run(events, steps).value;
      && j <= |events| && t.cursor == |Log(events[..j])|
      && Subsequence(StoredAll(events[..j]), t.store)
      && (t.store == StoredAll(events[..j]) <==> CleanRun(events, steps))
  {
    hide Line, Log, Subsequence, AllPrinted, Run, CleanRun, Stored;
    var wasted;
    j, wasted := RunDelivers(events, steps);
  }

  /** After a poll whose log does not end in a bare CR, no whole line is left behind the cursor. */
  lemma PollReachesLastLine(events: seq<Event>, steps: seq<Step>) returns (j: nat)
    requires AllPrinted(events) && Run(events, steps + [Poll]).Some? && Run(events, steps).Some?
    requires !EndsInCr(File(events, Run(events, steps).value))
    ensures j <= |events| && Run(events, steps + [Poll]).value.cursor == |Log(events[..j])|
    ensures j < |events| ==> Run(events, steps).value.visible <= |Log(events[..j])| + |Line(events[j])|
  {
    hide Line, Log, Subsequence, AllPrinted, Stored, StoredAll, EndsInCr, Apply, Wasted, Clean, CleanRun;
    assert (steps + [Poll])[..|steps|] == steps;
    var i, wasted := RunDelivers(events, steps);
    j := StepDelivers(events, Run(events, steps).value, Poll, i, wasted);
  }

  /** A poll that catches the writer between CR and LF does duplicate: one event, polled once in that
      instant and once after, is stored twice. */
  lemma CutTerminatorDuplicates(e: Event)
    requires e.Printed()
    ensures var n := |Line(e)|;
      var r := Run([e], [Grow(n + 1), Poll, Grow(n + 2), Poll]);
      r.Some? && r.value.store == [Stored(e), Stored(e)]
  {
    hide Line, StoredAll, ReadAll, Stored;
    var n, events := |Line(e)|, [e];
    assert events[1..] == [];
    assert |Log(events)| == n + 2;
    var t0 := Tail(0, [], 0);
    var t1 := t0.(visible := n + 1);
    EmptyPrefix(events);
    assert events[0..] == events;
    LogPrefix(events, 0);
    ReadsExpected(events, n + 1, false);
    assert File(events, t1)[0..] == Log(events)[..n + 1];
    var t2 := Apply(events, t1, Poll);
    assert t2 == Tail(n + 1, [Stored(e)], 0);
    var t3 := t2.(visible := n + 2);
    ReadsExpected(events, n + 2, false);
    assert File(events, t3)[0..] == Log(events)[..n + 2];
    var t4 := Apply(events, t3, Poll);
    assert t4.store == [Stored(e)] + [Stored(e)];
    var steps := [Grow(n + 1), Poll, Grow(n + 2), Poll];
    assert steps[..3][..2] == [Grow(n + 1), Poll] && steps[..3][..2][..1] == [Grow(n + 1)] && steps[..3][..2][..1][..0] == [];
    assert Run(events, steps[..3][..2][..1][..0]) == Some(t0);
    assert Run(events, steps[..3][..2][..1]) == Some(t1);
    assert Run(events, steps[..3][..2]) == Some(t2);
    assert Run(events, steps[..3]) == Some(t3);
    assert Run(events, steps) == Some(t4);
  }
}
