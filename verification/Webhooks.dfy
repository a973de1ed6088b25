/** Receipt of a webhook payload: signature, replay window, freshness and content, in that order. */
module Webhooks {

  const REPLAY_MEMORY: nat := 4096

  datatype Signature = MissingSignature | WrongSignature | RightSignature

  /** A payload's timestamp; json and float both read a NaN, and every comparison with it is false. */
  datatype SentAt = Absent | NotATimestamp | NaN | At(seconds: real)

  /** A body after decoding; the normaliser may refuse the payload, or say whether it is tradable. */
  datatype Content = Unnormalisable | Untradable | Tradable

  datatype Body = NotJson | NotAnObject | Object(requestId: string, sentAt: SentAt, content: Content)

  datatype Delivery = Delivery(signature: Signature, body: Body, now: real)

  datatype Reason = BadSignature | BadBody | NoRequestId | Replayed | BadTimestamp | Stale | Future | Content

  datatype Verdict = Refused(reason: Reason) | Declined | Accepted

  /** The signature and shape checks that stand before the replay check. */
  predicate ReachesReplayCheck(d: Delivery) {
    d.signature == RightSignature && d.body.Object? && d.body.requestId != ""
  }

  function LastOf<T>(items: seq<T>, n: nat): (r: seq<T>)
    ensures |r| <= n && |r| <= |items|
  {
    if |items| <= n then items else items[|items| - n..]
  }

  predicate Passes(window: seq<string>, d: Delivery) {
    ReachesReplayCheck(d) && d.body.requestId !in window
  }

  function Window(window: seq<string>, d: Delivery): seq<string> {
    if Passes(window, d) then LastOf(window + [d.body.requestId], REPLAY_MEMORY) else window
  }

  function Judged(sentAt: SentAt, content: Content, now: real, maxAge: real): Verdict {
    if sentAt.Absent? || sentAt.NotATimestamp? then Refused(BadTimestamp)
    else if sentAt.At? && now - sentAt.seconds > maxAge then Refused(Stale)
    else if sentAt.At? && now - sentAt.seconds < -30.0 then Refused(Future)
    else if content == Unnormalisable then Refused(Content)
    else if content == Untradable then Declined
    else Accepted
  }

  function Received(window: seq<string>, d: Delivery, maxAge: real): Verdict {
    if d.signature != RightSignature then Refused(BadSignature)
    else if !d.body.Object? then Refused(BadBody)
    else if d.body.requestId == "" then Refused(NoRequestId)
    else if d.body.requestId in window then Refused(Replayed)
    else Judged(d.body.sentAt, d.body.content, d.now, maxAge)
  }

  predicate NoDuplicates(s: seq<string>) {
    forall i, j :: 0 <= i < j < |s| ==> s[i] != s[j]
  }

  class Webhook {
    const maxAge: real
    var seen: seq<string>
    var seenSet: set<string>

    constructor (maxAge: real)
      ensures this.maxAge == maxAge && seen == [] && Valid()
    {
      this.maxAge := maxAge;
      seen, seenSet := [], {};
    }

    /** The set is the contents of the bounded queue, which holds no id twice. */
    ghost predicate Valid()
      reads this
    {
      |seen| <= REPLAY_MEMORY && NoDuplicates(seen) && seenSet == set id | id in seen
    }

    method CheckReplay(id: string) returns (ok: bool)
      requires Valid()
      modifies this
      ensures Valid()
      ensures ok <==> id !in old(seen)
      ensures seen == if ok then LastOf(old(seen) + [id], REPLAY_MEMORY) else old(seen)
    {
      if id in seenSet {
        return false;
      }
      ghost var before := seen;
      if |seen| == REPLAY_MEMORY && seen != [] {
        seenSet := seenSet - {seen[0]};
        seen := seen[1..];
      }
      seen := seen + [id];
      seenSet := seenSet + {id};
      SetKept(before, id, seen);
      return true;
    }

    method Receive(d: Delivery) returns (v: Verdict)
      requires Valid()
      modifies this
      ensures Valid()
      ensures v == Received(old(seen), d, maxAge)
      ensures seen == Window(old(seen), d)
    {
      if d.signature == MissingSignature || d.signature == WrongSignature {
        return Refused(BadSignature);
      }
      if d.body.NotJson? || d.body.NotAnObject? {
        return Refused(BadBody);
      }
      if d.body.requestId == "" {
        return Refused(NoRequestId);
      }
      var ok := CheckReplay(d.body.requestId);
      if !ok {
        return Refused(Replayed);
      }
      var sentAt := d.body.sentAt;
      if sentAt.Absent? || sentAt.NotATimestamp? {
        return Refused(BadTimestamp);
      }
      if sentAt.At? {
        var age := d.now - sentAt.seconds;
        if age > maxAge {
          return Refused(Stale);
        }
        if age < -30.0 {
          return Refused(Future);
        }
      }
      if d.body.content == Unnormalisable {
        return Refused(Content);
      }
      return if d.body.content == Untradable then Declined else Accepted;
    }
  }

  /** Dropping the oldest of distinct ids drops it from their set. */
  lemma SetKept(before: seq<string>, id: string, after: seq<string>)
    requires NoDuplicates(before) && id !in before && |before| <= REPLAY_MEMORY
    requires after == LastOf(before + [id], REPLAY_MEMORY)
    ensures NoDuplicates(after)
    ensures |before| == REPLAY_MEMORY ==> (set x | x in after) == (set x | x in before) - {before[0]} + {id}
    ensures |before| < REPLAY_MEMORY ==> (set x | x in after) == (set x | x in before) + {id}
  {
    if |before| == REPLAY_MEMORY {
      assert after == before[1..] + [id];
      assert before == [before[0]] + before[1..];
    }
  }

  // ---------------------------------------------------------------- runs

  function WindowAfter(run: seq<Delivery>): seq<string> {
    if run == [] then [] else Window(WindowAfter(run[..|run| - 1]), run[|run| - 1])
  }

  /** The ids that passed the replay check, in order, whatever became of their payloads. */
  function Passed(run: seq<Delivery>): seq<string> {
    if run == [] then []
    else
      Passed(run[..|run| - 1])
      + if Passes(WindowAfter(run[..|run| - 1]), run[|run| - 1]) then [run[|run| - 1].body.requestId] else []
  }

  /** The window is always exactly the last 4096 ids that passed. */
  lemma {:induction false} WindowIsLatestPassed(run: seq<Delivery>)
    ensures WindowAfter(run) == LastOf(Passed(run), REPLAY_MEMORY)
  {
    if run != [] {
      var earlier := run[..|run| - 1];
      WindowIsLatestPassed(earlier);
      if Passes(WindowAfter(earlier), run[|run| - 1]) {
        LastOfAppend(Passed(earlier), run[|run| - 1].body.requestId);
      }
    }
  }

  lemma LastOfAppend(items: seq<string>, id: string)
    ensures LastOf(LastOf(items, REPLAY_MEMORY) + [id], REPLAY_MEMORY) == LastOf(items + [id], REPLAY_MEMORY)
  {
  }

  /** After any run a delivery is refused as replayed exactly when its id is among the last 4096 that
      passed, whether or not those payloads were later refused; and it is accepted exactly when, besides,
      its timestamp is fresh (a NaN counts as fresh) and its content tradable. */
  lemma ReceivedExactly(run: seq<Delivery>, d: Delivery, maxAge: real)
    ensures var v := Received(WindowAfter(run), d, maxAge);
      && (v == Refused(Replayed) <==> ReachesReplayCheck(d) && d.body.requestId in LastOf(Passed(run), REPLAY_MEMORY))
      && (v == Accepted <==>
          && ReachesReplayCheck(d)
          && d.body.requestId !in LastOf(Passed(run), REPLAY_MEMORY)
          && (d.body.sentAt.NaN? || (d.body.sentAt.At? && -30.0 <= d.now - d.body.sentAt.seconds <= maxAge))
          && d.body.content == Tradable)
  {
    hide WindowAfter, Passed, LastOf;
    WindowIsLatestPassed(run);
  }

  /** An id passes twice only with at least 4096 other ids passing in between. */
  lemma {:induction false} RepeatsAreFarApart(run: seq<Delivery>, i: nat, j: nat)
    requires i < j < |Passed(run)| && Passed(run)[i] == Passed(run)[j]
    ensures j - i > REPLAY_MEMORY
  {
    var earlier := run[..|run| - 1];
    if j < |Passed(earlier)| {
      RepeatsAreFarApart(earlier, i, j);
    } else {
      WindowIsLatestPassed(earlier);
      var past := Passed(earlier);
      if j - i <= REPLAY_MEMORY {
        InLastOf(past, i);
      }
    }
  }

  lemma InLastOf(items: seq<string>, i: nat)
    requires i < |items| && |items| - i <= REPLAY_MEMORY
    ensures items[i] in LastOf(items, REPLAY_MEMORY)
  {
    var r := LastOf(items, REPLAY_MEMORY);
    assert r[i - (|items| - |r|)] == items[i];
  }

  /** A payload that passes the replay check uses its id up: sent again at once it is refused, even when
      the first sending was refused as stale. */
  lemma FirstSendingUsesTheId(window: seq<string>, d: Delivery, again: Delivery, maxAge: real)
    requires Passes(window, d) && ReachesReplayCheck(again) && again.body.requestId == d.body.requestId
    ensures Received(Window(window, d), again, maxAge) == Refused(Replayed)
  {
    var w := Window(window, d);
    assert w[|w| - 1] == d.body.requestId;
  }
}
