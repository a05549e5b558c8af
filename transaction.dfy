/** The command transaction engine of the SIM7000G handler
    (`send_at` / `wait_for_response` in modem_handler.py).

    The serial port is a script: `script[k]` is the text found waiting at
    the k-th poll of the port ("" when nothing is waiting), and a poll that
    finds text consumes it. Time is counted in milliseconds of sleep between
    polls; a transaction gives up once the time it has slept reaches its
    timeout. */
module Transaction {
  import opened Text

  /** The token that ends every transaction as a failure. */
  const ErrorToken: string := "ERROR"

  /** What the k-th poll of the script finds (nothing once the script is exhausted). */
  function Fragment(script: seq<string>, k: nat): string {
    if k < |script| then script[k] else ""
  }

  /** The script left after k polls. */
  function Drop(script: seq<string>, k: nat): seq<string> {
    if k <= |script| then script[k..] else []
  }

  /** Everything the first n polls deliver, in order. */
  function Gather(script: seq<string>, n: nat): string {
    if n == 0 then "" else Fragment(script, 0) + Gather(Drop(script, 1), n - 1)
  }

  /** The accumulated response ends the transaction. */
  predicate Stops(text: string, expected: string) {
    Contains(text, expected) || Contains(text, ErrorToken)
  }

  /** Outcome of one transaction: whether the expected token was seen, the
      response gathered, the script left, the time slept and the number of
      polls made. */
  datatype Exchange = Exchange(matched: bool, text: string, rest: seq<string>, waited: nat, polls: nat)

  /** The polling loop: poll, and if the poll found text, append it and stop
      once the response holds `expected` or "ERROR" (reporting whether it
      holds `expected`); otherwise sleep `step` ms and poll again while the
      time slept is below `limit`. */
  function Await(script: seq<string>, acc: string, expected: string, waited: nat, limit: nat, step: nat): Exchange
    requires step > 0
    decreases if waited <= limit then limit - waited else 0
  {
    if waited >= limit then Exchange(false, acc, script, waited, 0)
    else
      var frag := Fragment(script, 0);
      var text := acc + frag;
      if frag != "" && Stops(text, expected) then
        Exchange(Contains(text, expected), text, Drop(script, 1), waited, 1)
      else
        var r := Await(Drop(script, 1), text, expected, waited + step, limit, step);
        r.(polls := r.polls + 1)
  }

  lemma DropDrop(script: seq<string>, n: nat)
    ensures Drop(Drop(script, 1), n) == Drop(script, n + 1)
  {
  }

  lemma FragmentDrop(script: seq<string>, j: nat)
    ensures Fragment(Drop(script, 1), j) == Fragment(script, j + 1)
  {
  }

  /** The j-th poll found text, and the response up to and including it did
      not end the transaction. */
  predicate PassedPoll(script: seq<string>, acc: string, expected: string, j: nat) {
    Fragment(script, j) != "" ==> !Stops(acc + Gather(script, j + 1), expected)
  }

  /** How many polls the transaction made without stopping: all of them on
      a timeout, all but the last otherwise. */
  function Passed(r: Exchange, limit: nat): int {
    if r.waited >= limit then r.polls else r.polls - 1
  }

  /** What a transaction promises: the response is exactly what the polls
      delivered; it is a match iff it stopped before the timeout with
      `expected` in the response (so a response holding both `expected` and
      "ERROR" is a match); it stops at the first poll whose response holds
      either token; and it never sleeps past the timeout by a full step. */
  predicate Promised(script: seq<string>, acc: string, expected: string, waited: nat, limit: nat, step: nat, r: Exchange) {
    && r.text == acc + Gather(script, r.polls)
    && r.rest == Drop(script, r.polls)
    && (r.matched <==> r.waited < limit && Contains(r.text, expected))
    && (r.waited < limit ==> r.polls >= 1 && Fragment(script, r.polls - 1) != "" && Stops(r.text, expected))
    && (r.waited >= limit ==> !r.matched)
    && (forall j :: 0 <= j < Passed(r, limit) ==> PassedPoll(script, acc, expected, j))
    && waited <= r.waited
    && (waited >= limit ==> r.waited == waited)
    && (waited <= limit ==> r.waited < limit + step)
  }

  /** Gathering one more poll in front. */
  lemma GatherCons(script: seq<string>, acc: string, n: nat)
    ensures acc + Gather(script, n + 1) == (acc + Fragment(script, 0)) + Gather(Drop(script, 1), n)
  {
    assert Gather(script, n + 1) == Fragment(script, 0) + Gather(Drop(script, 1), n);
  }

  /** The polls that passed after the first one still pass when seen from
      the start of the transaction. */
  lemma PassedShift(script: seq<string>, acc: string, expected: string, n: int)
    requires PassedPoll(script, acc, expected, 0)
    requires forall j :: 0 <= j < n ==> PassedPoll(Drop(script, 1), acc + Fragment(script, 0), expected, j)
    ensures forall j :: 0 <= j < n + 1 ==> PassedPoll(script, acc, expected, j)
  {
    forall j | 0 < j < n + 1
      ensures PassedPoll(script, acc, expected, j)
    {
      assert PassedPoll(Drop(script, 1), acc + Fragment(script, 0), expected, j - 1);
      FragmentDrop(script, j - 1);
      GatherCons(script, acc, j);
    }
  }

  /** A poll that does not end the transaction keeps the promise of the rest. */
  lemma AwaitStep(script: seq<string>, acc: string, expected: string, waited: nat, limit: nat, step: nat, r1: Exchange)
    requires step > 0 && waited < limit
    requires !(Fragment(script, 0) != "" && Stops(acc + Fragment(script, 0), expected))
    requires Promised(Drop(script, 1), acc + Fragment(script, 0), expected, waited + step, limit, step, r1)
    ensures Promised(script, acc, expected, waited, limit, step, r1.(polls := r1.polls + 1))
  {
    var r := r1.(polls := r1.polls + 1);
    assert r.text == acc + Gather(script, r.polls) by {
      GatherCons(script, acc, r1.polls);
    }
    assert r.rest == Drop(script, r.polls) by {
      DropDrop(script, r1.polls);
    }
    assert r.waited < limit ==> Fragment(script, r.polls - 1) != "" by {
      if r.waited < limit {
        FragmentDrop(script, r1.polls - 1);
      }
    }
    assert forall j :: 0 <= j < Passed(r, limit) ==> PassedPoll(script, acc, expected, j) by {
      GatherCons(script, acc, 0);
      assert acc + Gather(script, 1) == acc + Fragment(script, 0);
      assert PassedPoll(script, acc, expected, 0);
      PassedShift(script, acc, expected, Passed(r1, limit));
      assert Passed(r, limit) == Passed(r1, limit) + 1;
    }
  }

  lemma {:induction false} AwaitSpec(script: seq<string>, acc: string, expected: string, waited: nat, limit: nat, step: nat)
    requires step > 0
    ensures Promised(script, acc, expected, waited, limit, step, Await(script, acc, expected, waited, limit, step))
    decreases if waited <= limit then limit - waited else 0
  {
    if waited >= limit {
      assert acc + Gather(script, 0) == acc;
    } else {
      var frag := Fragment(script, 0);
      var text := acc + frag;
      assert Gather(script, 1) == frag + Gather(Drop(script, 1), 0);
      assert acc + Gather(script, 1) == text;
      if !(frag != "" && Stops(text, expected)) {
        AwaitSpec(Drop(script, 1), text, expected, waited + step, limit, step);
        AwaitStep(script, acc, expected, waited, limit, step, Await(Drop(script, 1), text, expected, waited + step, limit, step));
      }
    }
  }

  /** A port on which nothing ever arrives. */
  predicate Silent(script: seq<string>) {
    forall k :: 0 <= k < |script| ==> script[k] == ""
  }

  /** A transaction on a silent port times out with the response it started
      from, and the port stays silent. */
  lemma {:induction false} SilentAwait(script: seq<string>, acc: string, expected: string, waited: nat, limit: nat, step: nat)
    requires step > 0 && Silent(script)
    ensures var r := Await(script, acc, expected, waited, limit, step);
      !r.matched && r.text == acc && Silent(r.rest)
    decreases if waited <= limit then limit - waited else 0
  {
    if waited < limit {
      assert Fragment(script, 0) == "";
      assert acc + "" == acc;
      SilentAwait(Drop(script, 1), acc, expected, waited + step, limit, step);
    }
  }
}
