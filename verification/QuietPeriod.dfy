/** The quiet callback of the stream loop: it should be called once per message-free period, and
    reconnects should not end that period. */
module QuietPeriod {
  /** How one wait for the next message ends: with a message, by the idle timeout, by a stream error
      or by a clean end of the stream. */
  datatype End = Message | Idle | Error | Closed

  /** `due`: the wait was still pending when the stream had been quiet for the configured time. */
  datatype Wait = Wait(due: bool, end: End)

  /** The flag before wait `n`: it is set by a due wait and kept only by an idle timeout. */
  function Reported(waits: seq<Wait>, n: nat): bool
    requires n <= |waits|
  {
    n > 0 && waits[n - 1].end == Idle && (Reported(waits, n - 1) || waits[n - 1].due)
  }

  /** The handler is called during wait `n`. */
  predicate Calls(waits: seq<Wait>, n: nat)
    requires n < |waits|
  {
    waits[n].due && !Reported(waits, n)
  }

  /** Carry the flag through every wait and list the waits in which the handler was called. */
  method WatchQuiet(waits: seq<Wait>) returns (calls: seq<nat>)
    ensures forall i :: 0 <= i < |calls| ==> calls[i] < |waits| && Calls(waits, calls[i])
    ensures forall i, j :: 0 <= i < j < |calls| ==> calls[i] < calls[j]
    ensures forall n :: 0 <= n < |waits| && Calls(waits, n) ==> n in calls
  {
    calls := [];
    var reported := false;
    for n := 0 to |waits|
      invariant reported == Reported(waits, n)
      invariant forall i :: 0 <= i < |calls| ==> calls[i] < n && Calls(waits, calls[i])
      invariant forall i, j :: 0 <= i < j < |calls| ==> calls[i] < calls[j]
      invariant forall k :: 0 <= k < n && Calls(waits, k) ==> k in calls
    {
      if waits[n].due && !reported {
        reported := true;
        calls := calls + [n];
      }
      if waits[n].end != Idle { reported := false; }
    }
  }

  /** No wait of `from..to` ended otherwise than by the idle timeout. */
  ghost predicate OnlyIdle(waits: seq<Wait>, from: nat, to: nat)
    requires from <= to <= |waits|
  {
    forall k :: from <= k < to ==> waits[k].end == Idle
  }

  /** No message arrived between wait `from` and wait `to`: they lie in one quiet period. */
  ghost predicate SamePeriod(waits: seq<Wait>, from: nat, to: nat)
    requires from <= to <= |waits|
  {
    forall k :: from <= k < to ==> waits[k].end != Message
  }

  /** The flag is set exactly when a due wait was followed by idle timeouts only. */
  lemma {:induction false} ReportedIff(waits: seq<Wait>, n: nat)
    requires n <= |waits|
    ensures Reported(waits, n) <==> exists i :: 0 <= i < n && waits[i].due && OnlyIdle(waits, i, n)
  {
    if n > 0 {
      ReportedIff(waits, n - 1);
      if Reported(waits, n) {
        if Reported(waits, n - 1) {
          var i :| 0 <= i < n - 1 && waits[i].due && OnlyIdle(waits, i, n - 1);
          assert OnlyIdle(waits, i, n);
        } else {
          assert OnlyIdle(waits, n - 1, n);
        }
      }
      if i :| 0 <= i < n && waits[i].due && OnlyIdle(waits, i, n) {
        assert i < n - 1 ==> OnlyIdle(waits, i, n - 1);
      }
    }
  }

  /** A due wait is covered by a call: its own, or an earlier one with only idle timeouts since. */
  lemma {:induction false} DueIsCovered(waits: seq<Wait>, n: nat) returns (m: nat)
    requires n < |waits| && waits[n].due
    ensures m <= n && Calls(waits, m) && OnlyIdle(waits, m, n)
  {
    m := n;
    if !Calls(waits, n) {
      ReportedIff(waits, n);
      var i :| 0 <= i < n && waits[i].due && OnlyIdle(waits, i, n);
      m := DueIsCovered(waits, i);
    }
  }

  /** The documented promise: two calls never fall in one quiet period. */
  ghost predicate OncePerPeriod(waits: seq<Wait>) {
    forall i, j :: 0 <= i < j < |waits| && Calls(waits, i) && Calls(waits, j) ==> !SamePeriod(waits, i, j)
  }

  /** In one quiet period, a stream error or a clean end comes between two due waits. */
  ghost predicate BrokenWhileQuiet(waits: seq<Wait>) {
    exists i, j :: 0 <= i < j < |waits| && waits[i].due && waits[j].due && SamePeriod(waits, i, j) && !OnlyIdle(waits, i, j)
  }

  /** The promise holds exactly when no session that ended by an error or a clean close lies between
      two due waits of one period. */
  lemma OncePerPeriodIff(waits: seq<Wait>)
    ensures OncePerPeriod(waits) <==> !BrokenWhileQuiet(waits)
  {
    if !OncePerPeriod(waits) {
      var i, j :| 0 <= i < j < |waits| && Calls(waits, i) && Calls(waits, j) && SamePeriod(waits, i, j);
      ReportedIff(waits, j);
      assert waits[i].due && waits[j].due && SamePeriod(waits, i, j) && !OnlyIdle(waits, i, j);
    }
    if BrokenWhileQuiet(waits) {
      var i, j :| 0 <= i < j < |waits| && waits[i].due && waits[j].due && SamePeriod(waits, i, j) && !OnlyIdle(waits, i, j);
      var first := DueIsCovered(waits, i);
      var second := DueIsCovered(waits, j);
      assert first <= i < second;
      assert SamePeriod(waits, first, second);
    }
  }

  /** One error after the call is enough to have the handler called again in the same period. */
  lemma SecondCall()
    ensures !OncePerPeriod([Wait(true, Error), Wait(true, Idle)])
  {
    var waits := [Wait(true, Error), Wait(true, Idle)];
    assert Calls(waits, 0) && Calls(waits, 1) && SamePeriod(waits, 0, 1);
  }

  /** The rest of the promise holds as documented: a due wait never goes unreported in its period. */
  lemma DueIsReported(waits: seq<Wait>, n: nat)
    requires n < |waits| && waits[n].due
    ensures exists m: nat :: m <= n && Calls(waits, m) && SamePeriod(waits, m, n)
  {
    var m := DueIsCovered(waits, n);
    assert SamePeriod(waits, m, n);
  }
}
