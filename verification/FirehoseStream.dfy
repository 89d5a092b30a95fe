/** The reconnecting Firehose client over a server log. The network decides how each
    connection attempt goes; a timeout, an error or a clean close may come at any message. */
module FirehoseStream {
  import opened Wrappers

  const MAX_FAILED_ATTEMPTS: nat := 30

  /** One response. Its cursor names the position after it, so cursors are positions. */
  datatype Message = Message(num: nat, carriesBlock: bool, hasMetadata: bool, payload: string)

  datatype End = Idle | Closed | Failed(fatal: bool) | HandlerError | Cancelled

  /** A session delivers up to `count` further messages and then ends as `end`. */
  datatype Attempt = NoConnection | NoStream(fatal: bool) | Session(count: nat, end: End) | Shutdown

  datatype Outcome = Running | Complete | Exhausted | GaveUp | Rejected | BadMessage | HandlerFailed | ShutDown

  // ------------------------------------------------- pure decisions

  /** The inclusive stop block of the request; 0 means "stream forever". */
  function RequestedStop(stop: Option<nat>): nat {
    match stop
    case None => 0
    case Some(s) => if s <= 1 then 1 else s - 1
  }

  /** A bounded run never asks for an endless stream, asks for every wanted block, and asks for an
      unwanted one only when the exclusive stop is 0 or 1. */
  lemma RequestCoversRange(stop: nat, num: nat)
    ensures RequestedStop(Some(stop)) >= 1
    ensures num < stop ==> num <= RequestedStop(Some(stop))
    ensures stop <= num <= RequestedStop(Some(stop)) ==> stop <= 1 && num <= 1
  {
  }

  datatype CleanEnd = EndComplete | EndExhausted | EndReconnect

  function CleanEndAction(stop: Option<nat>, last: Option<nat>, blocks: nat, resumed: bool): CleanEnd {
    if stop.None? then EndReconnect
    else if last.Some? && last.value >= (if stop.value == 0 then 0 else stop.value - 1) then EndComplete
    else if resumed && blocks == 0 then EndExhausted
    else EndReconnect
  }

  // ------------------------------------------------- what should reach the handler

  predicate Wants(m: Message, stop: Option<nat>) {
    m.carriesBlock && (stop.Some? ==> m.num < stop.value)
  }

  /** The messages among the first `n` whose block the handler must see, in order. */
  function WantedBy(log: seq<Message>, n: nat, stop: Option<nat>): seq<Message>
    requires n <= |log|
  {
    if n == 0 then [] else WantedBy(log, n - 1, stop) + if Wants(log[n - 1], stop) then [log[n - 1]] else []
  }

  function Wanted(log: seq<Message>, stop: Option<nat>): seq<Message> {
    WantedBy(log, |log|, stop)
  }

  /** The highest block among the first `n` messages. */
  function HighestBy(log: seq<Message>, n: nat): Option<nat>
    requires n <= |log|
  {
    if n == 0 then None
    else
      var h, m := HighestBy(log, n - 1), log[n - 1];
      if m.carriesBlock && (h.None? || h.value < m.num) then Some(m.num) else h
  }

  ghost predicate Ascending(log: seq<Message>) {
    forall i, j :: 0 <= i < j < |log| && log[i].carriesBlock && log[j].carriesBlock ==> log[i].num < log[j].num
  }

  /** `HighestBy` is a block received, and the highest of them. */
  lemma {:induction false} HighestIsMaximum(log: seq<Message>, n: nat)
    requires n <= |log|
    ensures var h := HighestBy(log, n);
            && (forall i :: 0 <= i < n && log[i].carriesBlock ==> h.Some? && log[i].num <= h.value)
            && (h.Some? ==> exists i :: 0 <= i < n && log[i].carriesBlock && log[i].num == h.value)
  {
    if n > 0 {
      HighestIsMaximum(log, n - 1);
      if HighestBy(log, n).Some? {
        if HighestBy(log, n) == HighestBy(log, n - 1) {
          var i :| 0 <= i < n - 1 && log[i].carriesBlock && log[i].num == HighestBy(log, n).value;
        } else {
          assert log[n - 1].carriesBlock && log[n - 1].num == HighestBy(log, n).value;
        }
      }
    }
  }

  /** Each wanted message occurs, in the order of the log, and nothing else. */
  lemma {:induction false} WantedIsPrefix(log: seq<Message>, n: nat, m: nat, stop: Option<nat>)
    requires n <= m <= |log|
    ensures WantedBy(log, n, stop) <= WantedBy(log, m, stop)
    ensures (forall i :: n <= i < m ==> !Wants(log[i], stop)) ==> WantedBy(log, m, stop) == WantedBy(log, n, stop)
    ensures n < m && Wants(log[n], stop) ==> WantedBy(log, n, stop) + [log[n]] <= WantedBy(log, m, stop)
  {
    if n < m {
      WantedIsPrefix(log, n, m - 1, stop);
      if n == m - 1 { assert WantedBy(log, n, stop) <= WantedBy(log, n, stop); }
    }
  }

  /** In a final-only log, having received block `stop - 1` or a later one leaves nothing to hand over. */
  lemma CompleteMeansAll(log: seq<Message>, pos: nat, stop: nat)
    requires pos <= |log| && Ascending(log)
    requires HighestBy(log, pos).Some? && HighestBy(log, pos).value >= stop - 1
    ensures WantedBy(log, pos, Some(stop)) == Wanted(log, Some(stop))
  {
    HighestIsMaximum(log, pos);
    var i :| 0 <= i < pos && log[i].carriesBlock && log[i].num == HighestBy(log, pos).value;
    forall j | pos <= j < |log| ensures !Wants(log[j], Some(stop)) {
      assert log[j].carriesBlock ==> log[i].num < log[j].num;
    }
    WantedIsPrefix(log, pos, |log|, Some(stop));
  }

  // ------------------------------------------------- what the server sends

  /** The messages that a request with this inclusive stop block yields; 0 yields all of them. */
  function Served(log: seq<Message>, limit: nat): seq<Message> {
    if log == [] then []
    else
      var m := log[|log| - 1];
      Served(log[..|log| - 1], limit) + if limit == 0 || m.num <= limit then [m] else []
  }

  lemma {:induction false} WantedOfPrefix(a: seq<Message>, b: seq<Message>, n: nat, stop: Option<nat>)
    requires n <= |a| && n <= |b| && forall i :: 0 <= i < n ==> a[i] == b[i]
    ensures WantedBy(a, n, stop) == WantedBy(b, n, stop)
  {
    if n > 0 { WantedOfPrefix(a, b, n - 1, stop); }
  }

  lemma OneMoreMessage(log: seq<Message>, m: Message, stop: Option<nat>)
    ensures Wanted(log + [m], stop) == Wanted(log, stop) + if Wants(m, stop) then [m] else []
  {
    WantedOfPrefix(log, log + [m], |log|, stop);
  }

  /** The request that is sent leaves out nothing the handler must see. */
  lemma {:induction false} ServedIsEnough(log: seq<Message>, stop: Option<nat>)
    ensures Wanted(Served(log, RequestedStop(stop)), stop) == Wanted(log, stop)
  {
    if log != [] {
      var before, m := log[..|log| - 1], log[|log| - 1];
      var s := Served(before, RequestedStop(stop));
      ServedIsEnough(before, stop);
      if stop.Some? { RequestCoversRange(stop.value, m.num); }
      assert log == before + [m] && s + [] == s;
      OneMoreMessage(before, m, stop);
      OneMoreMessage(s, m, stop);
    }
  }

  /** For the exclusive stop 1 block 1 is requested too, and never handed over. */
  lemma StopOneDropsBlockOne(m: Message)
    requires m.num == 1
    ensures Served([m], RequestedStop(Some(1))) == [m] && Wanted([m], Some(1)) == []
  {
    assert [m][..0] == [];
    assert Served([m][..0], 1) == [];
    assert WantedBy([m], 0, Some(1)) == [];
  }

  lemma {:induction false} ServedAscends(log: seq<Message>, limit: nat)
    requires Ascending(log)
    ensures Ascending(Served(log, limit)) && forall m :: m in Served(log, limit) ==> m in log
  {
    if log != [] {
      var before, m := log[..|log| - 1], log[|log| - 1];
      ServedAscends(before, limit);
      var s := Served(before, limit);
      forall i | 0 <= i < |s| && s[i].carriesBlock && m.carriesBlock ensures s[i].num < m.num { assert s[i] in before; }
    }
  }

  // ------------------------------------------------- reconnect bookkeeping

  /** Time passed, never negative. */
  function Elapsed(since: nat, now: nat): nat {
    if now < since then 0 else now - since
  }

  /** After `failed` failures since a stall began, one more now is one too many or comes too late. */
  predicate TooMany(failed: nat, stall: Option<nat>, timeout: Option<nat>, now: nat) {
    || failed + 1 >= MAX_FAILED_ATTEMPTS
    || (timeout.Some? && (timeout.value == 0 || now >= (if stall.Some? then stall.value else now) + timeout.value))
  }

  class ReconnectState {
    const stallTimeout: Option<nat>
    var stallStartedAt: Option<nat>
    var failedAttempts: nat

    constructor (timeout: Option<nat>)
      ensures Valid() && failedAttempts == 0 && stallTimeout == timeout
    {
      stallTimeout := timeout;
      stallStartedAt := None;
      failedAttempts := 0;
    }

    /** The stall timer runs exactly while attempts have failed since the last message. */
    ghost predicate Valid()
      reads this
    {
      && (stallStartedAt.Some? <==> failedAttempts > 0)
      && failedAttempts < MAX_FAILED_ATTEMPTS
    }

    /** A failure recorded now is the last one allowed, or the stall has lasted too long. */
    predicate GivesUp(now: nat)
      reads this
    {
      TooMany(failedAttempts, stallStartedAt, stallTimeout, now)
    }

    method RecordProgress()
      modifies this
      requires Valid()
      ensures Valid() && failedAttempts == 0 && stallStartedAt == None
    {
      stallStartedAt := None;
      failedAttempts := 0;
    }

    /** Refuses to go on at the attempt limit or once the stall timeout has passed since the first
        failure; with a positive timeout a first failure is always retried. */
    method RecordFailure(now: nat) returns (goOn: bool)
      requires Valid()
      modifies this
      ensures failedAttempts == old(failedAttempts) + 1
      ensures stallStartedAt == if old(failedAttempts) == 0 then Some(now) else old(stallStartedAt)
      ensures goOn <==> !old(GivesUp(now))
      ensures goOn ==> Valid()
      ensures old(failedAttempts) == 0 && (stallTimeout.Some? ==> stallTimeout.value > 0) ==> goOn
    {
      failedAttempts := failedAttempts + 1;
      if stallStartedAt.None? { stallStartedAt := Some(now); }
      if stallTimeout.Some? && Elapsed(stallStartedAt.value, now) >= stallTimeout.value { return false; }
      goOn := failedAttempts < MAX_FAILED_ATTEMPTS;
    }
  }

  // ------------------------------------------------- the loop

  /** What the loop carries across reconnects: the cursor, the highest block and the handler's calls. */
  datatype Progress = Progress(pos: nat, last: Option<nat>, delivered: seq<Message>)

  ghost predicate Exact(log: seq<Message>, stop: Option<nat>, p: Progress) {
    p.pos <= |log| && p.delivered == WantedBy(log, p.pos, stop) && p.last == HighestBy(log, p.pos)
  }

  /** Handle the message at the cursor. */
  function Handle(log: seq<Message>, stop: Option<nat>, p: Progress): Progress
    requires p.pos < |log|
  {
    var m := log[p.pos];
    Progress(p.pos + 1,
             if m.carriesBlock && (p.last.None? || p.last.value < m.num) then Some(m.num) else p.last,
             if Wants(m, stop) then p.delivered + [m] else p.delivered)
  }

  ghost predicate Blockless(log: seq<Message>, from: nat, to: nat) {
    to <= |log| && forall i :: from <= i < to ==> !log[i].carriesBlock
  }

  lemma BlocklessGrows(log: seq<Message>, from: nat, to: nat)
    requires from <= to < |log|
    ensures Blockless(log, from, to + 1) <==> Blockless(log, from, to) && !log[to].carriesBlock
  {
  }

  /** Where a session stops that reads up to `count` messages, or meets one without metadata. */
  function EndOfRead(log: seq<Message>, from: nat, count: nat): (to: nat)
    requires from <= |log|
    ensures from <= to <= |log| && to - from <= count
    decreases count
  {
    if count == 0 || from == |log| || !log[from].hasMetadata then from else EndOfRead(log, from + 1, count - 1)
  }

  /** It stops at the first message without metadata, at the end of the log, or after `count` messages. */
  lemma {:induction false} EndOfReadIsFirst(log: seq<Message>, from: nat, count: nat)
    requires from <= |log|
    ensures var to := EndOfRead(log, from, count);
            && (forall i :: from <= i < to ==> log[i].hasMetadata)
            && (to == |log| || to - from == count || !log[to].hasMetadata)
    decreases count
  {
    if !(count == 0 || from == |log| || !log[from].hasMetadata) { EndOfReadIsFirst(log, from + 1, count - 1); }
  }

  /** Read one session: at most `count` messages, none without metadata. */
  method ReadSession(log: seq<Message>, stop: Option<nat>, before: Progress, count: nat)
    returns (p: Progress, blocks: nat, received: bool, broken: bool)
    requires Exact(log, stop, before)
    ensures Exact(log, stop, p) && p.pos == EndOfRead(log, before.pos, count)
    ensures received <==> count > 0 && before.pos < |log|
    ensures blocks == 0 <==> Blockless(log, before.pos, p.pos)
    ensures broken <==> p.pos < |log| && p.pos - before.pos < count
  {
    p, blocks, received, broken := before, 0, false, false;
    var n := 0;
    while n < count && p.pos < |log|
      invariant Exact(log, stop, p) && before.pos <= p.pos
      invariant received <==> p.pos > before.pos
      invariant n == p.pos - before.pos <= count
      invariant blocks == 0 <==> Blockless(log, before.pos, p.pos)
      invariant EndOfRead(log, before.pos, count) == EndOfRead(log, p.pos, count - n)
      decreases count - n
    {
      received := true;
      if !log[p.pos].hasMetadata { broken := true; return; }
      if log[p.pos].carriesBlock { blocks := blocks + 1; }
      var next := Handle(log, stop, p);
      BlocklessGrows(log, before.pos, p.pos);
      p := next;
      n := n + 1;
    }
  }

  /** The handler is called with the message at the cursor and fails: it saw the block, the cursor stays. */
  ghost predicate FailedInHandler(log: seq<Message>, stop: Option<nat>, p: Progress) {
    && p.pos < |log| && Wants(log[p.pos], stop)
    && p.delivered == WantedBy(log, p.pos, stop) + [log[p.pos]]
  }

  /** The last requested block, or a later one, was received. */
  predicate Reached(stop: Option<nat>, last: Option<nat>) {
    stop.Some? && last.Some? && last.value >= stop.value - 1
  }

  ghost predicate Sane(log: seq<Message>, stop: Option<nat>, outcome: Outcome, p: Progress) {
    if outcome == HandlerFailed then FailedInHandler(log, stop, p) else Exact(log, stop, p)
  }

  predicate EndsIdle(a: Attempt) {
    a.Session? && a.end == Idle
  }

  predicate EndsClosed(a: Attempt) {
    a.Session? && a.end == Closed
  }

  /** What is left: messages after the cursor, then failures still allowed. */
  ghost function Rank(log: seq<Message>, pos: nat, failed: nat): int {
    (MAX_FAILED_ATTEMPTS + 1) * (|log| - pos) + (MAX_FAILED_ATTEMPTS - failed)
  }

  /** Which outcome the end of a session has: `none` if it brought no block, `limit` if one more failure
      is one too many. */
  ghost predicate EndDecides(stop: Option<nat>, end: End, last: Option<nat>, none: bool, received: bool, resumed: bool, limit: bool,
                             outcome: Outcome) {
    var finished := end == Closed && (Reached(stop, last) || (stop.Some? && resumed && none));
    && outcome !in {HandlerFailed, BadMessage}
    && (outcome == Complete <==> end == Closed && Reached(stop, last))
    && (outcome == Exhausted <==> finished && !Reached(stop, last))
    && (outcome == Rejected <==> end == Failed(true))
    && (outcome == ShutDown <==> end == Cancelled)
    && (outcome == GaveUp <==> limit && !finished && (end == Failed(false) || (end == Closed && !received)))
  }

  /** How a session's end decides the next step. */
  method EndSession(stop: Option<nat>, end: End, p: Progress, blocks: nat, received: bool, resumed: bool,
                    rc: ReconnectState, now: nat)
    returns (outcome: Outcome, resumed': bool)
    requires rc.Valid() && end != HandlerError && (received ==> rc.failedAttempts == 0)
    modifies rc
    // Which end yields which outcome, in both directions.
    ensures EndDecides(stop, end, p.last, blocks == 0, received, resumed, old(rc.GivesUp(now)), outcome)
    ensures outcome == Running ==> rc.Valid()
    ensures outcome == Running ==>
              if end == Failed(false) || (end == Closed && !received)
              then rc.failedAttempts == old(rc.failedAttempts) + 1
                   && rc.stallStartedAt == (if old(rc.failedAttempts) == 0 then Some(now) else old(rc.stallStartedAt))
              else rc.failedAttempts == old(rc.failedAttempts) && rc.stallStartedAt == old(rc.stallStartedAt)
    ensures resumed' <==> resumed || (outcome == Running && end == Closed && stop.Some?)
  {
    resumed' := resumed;
    outcome := Running;
    match end
    case Idle =>
    case Cancelled => outcome := ShutDown;
    case Failed(fatal) =>
      if fatal { return Rejected, resumed; }
      var goOn := rc.RecordFailure(now);
      if !goOn { outcome := GaveUp; }
    case Closed =>
      match CleanEndAction(stop, p.last, blocks, resumed) {
        case EndComplete => return Complete, resumed;
        case EndExhausted => return Exhausted, resumed;
        case EndReconnect =>
      }
      if !received {
        var goOn := rc.RecordFailure(now);
        if !goOn { return GaveUp, resumed; }
      }
      if stop.Some? { resumed' := true; }
  }

  // ------------------------------------------------- what one attempt means

  /** The session meets a message without metadata. */
  predicate Bad(log: seq<Message>, from: nat, a: Attempt)
    requires from <= |log|
  {
    a.Session? && var to := EndOfRead(log, from, a.count); to < |log| && to - from < a.count
  }

  /** The session ends as its `end` says. */
  predicate Ends(log: seq<Message>, from: nat, a: Attempt, end: End)
    requires from <= |log|
  {
    a.Session? && a.end == end && !Bad(log, from, a)
  }

  predicate Receives(log: seq<Message>, from: nat, a: Attempt) {
    a.Session? && a.count > 0 && from < |log|
  }

  function CursorAfter(log: seq<Message>, from: nat, a: Attempt): (to: nat)
    requires from <= |log|
    ensures from <= to <= |log|
  {
    if a.Session? then EndOfRead(log, from, a.count) else from
  }

  /** The handler can be called with the message at the cursor. */
  predicate Callable(log: seq<Message>, at: nat, stop: Option<nat>) {
    at < |log| && log[at].hasMetadata && Wants(log[at], stop)
  }

  /** The attempt failed, or closed without a message: what the back-off, the stall timer and the
      attempt limit count, unless it ended the stream. */
  predicate Fails(log: seq<Message>, from: nat, a: Attempt)
    requires from <= |log|
  {
    || a.NoConnection? || a == NoStream(false)
    || Ends(log, from, a, Failed(false)) || (Ends(log, from, a, Closed) && !Receives(log, from, a))
  }

  /** A clean end that ends the stream: after the last requested block, or, once resumed, without any. */
  ghost predicate Finishes(log: seq<Message>, stop: Option<nat>, from: nat, a: Attempt, resumed: bool)
    requires from <= |log|
  {
    var to := CursorAfter(log, from, a);
    Ends(log, from, a, Closed)
    && (Reached(stop, HighestBy(log, to)) || (stop.Some? && resumed && Blockless(log, from, to)))
  }

  /** Which outcome an attempt from cursor `from` has. `resumed`: a bounded stream closed early before;
      `limit`: one more failure is one too many. */
  ghost predicate Decides(log: seq<Message>, stop: Option<nat>, from: nat, a: Attempt, resumed: bool, limit: bool,
                          outcome: Outcome)
    requires from <= |log|
  {
    var to := CursorAfter(log, from, a);
    var reached := Reached(stop, HighestBy(log, to));
    && (outcome == BadMessage <==> Bad(log, from, a))
    && (outcome == HandlerFailed <==> Ends(log, from, a, HandlerError) && Callable(log, to, stop))
    && (outcome == ShutDown <==> a.Shutdown? || Ends(log, from, a, Cancelled) || (Ends(log, from, a, HandlerError) && !Callable(log, to, stop)))
    && (outcome == Rejected <==> a == NoStream(true) || Ends(log, from, a, Failed(true)))
    && (outcome == Complete <==> Ends(log, from, a, Closed) && reached)
    && (outcome == Exhausted <==> Finishes(log, stop, from, a, resumed) && !reached)
    && (outcome == GaveUp <==> limit && Fails(log, from, a) && !Finishes(log, stop, from, a, resumed))
  }

  /** The counters after an attempt that leaves the stream running. */
  ghost predicate Counted(received: bool, fails: bool, now: nat, failed: nat, stall: Option<nat>, failed': nat, stall': Option<nat>) {
    && failed' == (if received then 0 else failed) + (if fails then 1 else 0)
    && stall' == if failed' == 0 then None else if fails && failed' == 1 then Some(now) else stall
  }

  lemma EndOfSessionDecides(log: seq<Message>, stop: Option<nat>, from: nat, a: Attempt, resumed: bool, limit: bool,
                            last: Option<nat>, none: bool, outcome: Outcome)
    requires from <= |log| && a.Session? && !Bad(log, from, a) && a.end != HandlerError
    requires last == HighestBy(log, CursorAfter(log, from, a))
    requires none <==> Blockless(log, from, CursorAfter(log, from, a))
    requires EndDecides(stop, a.end, last, none, Receives(log, from, a), resumed, limit, outcome)
    ensures Decides(log, stop, from, a, resumed, limit, outcome)
  {
  }

  /** One session, from its first message to its end. */
  method OneSession(log: seq<Message>, stop: Option<nat>, a: Attempt, now: nat, before: Progress, resumed: bool,
                    rc: ReconnectState)
    returns (outcome: Outcome, p: Progress, resumed': bool)
    requires rc.Valid() && Exact(log, stop, before) && a.Session?
    modifies rc
    ensures Sane(log, stop, outcome, p) && p.pos == CursorAfter(log, before.pos, a)
    ensures Decides(log, stop, before.pos, a, resumed,
                    if Receives(log, before.pos, a) then rc.stallTimeout == Some(0) else old(rc.GivesUp(now)), outcome)
    ensures outcome == Running ==> rc.Valid()
    ensures outcome == Running ==> Counted(Receives(log, before.pos, a), Fails(log, before.pos, a), now,
                                           old(rc.failedAttempts), old(rc.stallStartedAt), rc.failedAttempts, rc.stallStartedAt)
    ensures outcome == Running ==> (resumed' <==> resumed || (EndsClosed(a) && stop.Some?))
  {
    outcome, p, resumed' := BadMessage, before, resumed;
    var blocks, received, broken;
    p, blocks, received, broken := ReadSession(log, stop, before, a.count);
    if received { rc.RecordProgress(); }
    ghost var limit := rc.GivesUp(now);
    if !broken {
      if a.end == HandlerError {
        outcome, p := CallHandler(log, stop, p);
        HandlerErrorDecides(log, stop, before.pos, a, resumed, limit, outcome);
      } else {
        outcome, resumed' := EndSession(stop, a.end, p, blocks, received, resumed, rc, now);
        EndOfSessionDecides(log, stop, before.pos, a, resumed, limit, p.last, blocks == 0, outcome);
      }
    }
  }

  /** The handler is called with the message at the cursor and fails; without one to call it with, the
      session was only cancelled. */
  method CallHandler(log: seq<Message>, stop: Option<nat>, before: Progress) returns (outcome: Outcome, p: Progress)
    requires Exact(log, stop, before)
    ensures Sane(log, stop, outcome, p) && p.pos == before.pos
    ensures outcome == if Callable(log, p.pos, stop) then HandlerFailed else ShutDown
  {
    outcome, p := ShutDown, before;
    if p.pos < |log| && log[p.pos].hasMetadata && Wants(log[p.pos], stop) {
      outcome, p := HandlerFailed, p.(delivered := p.delivered + [log[p.pos]]);
    }
  }

  lemma HandlerErrorDecides(log: seq<Message>, stop: Option<nat>, from: nat, a: Attempt, resumed: bool, limit: bool, outcome: Outcome)
    requires from <= |log| && Ends(log, from, a, HandlerError)
    requires outcome == if Callable(log, CursorAfter(log, from, a), stop) then HandlerFailed else ShutDown
    ensures Decides(log, stop, from, a, resumed, limit, outcome)
  {
  }

  /** One pass of the outer loop. */
  method OneAttempt(log: seq<Message>, stop: Option<nat>, a: Attempt, now: nat, before: Progress, resumed: bool,
                    rc: ReconnectState)
    returns (outcome: Outcome, p: Progress, resumed': bool)
    requires rc.Valid() && Exact(log, stop, before)
    modifies rc
    ensures Sane(log, stop, outcome, p) && p.pos == CursorAfter(log, before.pos, a)
    ensures Decides(log, stop, before.pos, a, resumed,
                    if Receives(log, before.pos, a) then rc.stallTimeout == Some(0) else old(rc.GivesUp(now)), outcome)
    ensures outcome == Running ==> rc.Valid()
    ensures outcome == Running ==> Counted(Receives(log, before.pos, a), Fails(log, before.pos, a), now,
                                           old(rc.failedAttempts), old(rc.stallStartedAt), rc.failedAttempts, rc.stallStartedAt)
    ensures outcome == Running ==> (resumed' <==> resumed || (EndsClosed(a) && stop.Some?))
  {
    outcome, p, resumed' := Running, before, resumed;
    match a
    case Shutdown => outcome := ShutDown;
    case NoConnection =>
      var goOn := rc.RecordFailure(now);
      if !goOn { outcome := GaveUp; }
    case NoStream(fatal) =>
      if fatal { return Rejected, before, resumed; }
      var goOn := rc.RecordFailure(now);
      if !goOn { outcome := GaveUp; }
    case Session(_, _) =>
      outcome, p, resumed' := OneSession(log, stop, a, now, before, resumed, rc);
  }

  // ------------------------------------------------- what the attempts mean together

  /** One stream: what the server sends, the stop block, the stall timeout, and how and when each
      attempt goes. Each of the following depends on these alone. */
  datatype Stream = Stream(log: seq<Message>, stop: Option<nat>, limit: Option<nat>, env: nat -> Attempt, clock: nat -> nat) {

    /** The cursor after `n` attempts. */
    ghost function Cursor(n: nat): (to: nat)
      ensures to <= |log|
    {
      if n == 0 then 0 else CursorAfter(log, Cursor(n - 1), env(n - 1))
    }

    ghost predicate Hears(n: nat) {
      Receives(log, Cursor(n), env(n))
    }

    ghost predicate Counts(n: nat) {
      Fails(log, Cursor(n), env(n))
    }

    /** Failed attempts since the last message, after `n` attempts. */
    ghost function Failures(n: nat): nat {
      if n == 0 then 0 else (if Hears(n - 1) then 0 else Failures(n - 1)) + (if Counts(n - 1) then 1 else 0)
    }

    /** When the first of them failed. */
    ghost function Since(n: nat): nat {
      if n == 0 then 0 else if Counts(n - 1) && Failures(n) == 1 then clock(n - 1) else Since(n - 1)
    }

    ghost function Stall(n: nat): Option<nat> {
      if Failures(n) == 0 then None else Some(Since(n))
    }

    ghost predicate Resumed(n: nat) {
      stop.Some? && exists i: nat :: i < n && EndsClosed(env(i))
    }

    /** One more failure at attempt `n` is one too many, or comes too long after the first. */
    ghost predicate AtLimit(n: nat) {
      if Hears(n) then limit == Some(0) else TooMany(Failures(n), Stall(n), limit, clock(n))
    }

    /** Attempt `n` has this outcome. The cursor is quantified so that the definition unfolds on demand. */
    ghost predicate DecidesAt(n: nat, outcome: Outcome) {
      forall from: nat {:trigger Decides(log, stop, from, env(n), Resumed(n), AtLimit(n), outcome)} ::
        from == Cursor(n) ==> Decides(log, stop, from, env(n), Resumed(n), AtLimit(n), outcome)
    }
  }

  /** Attempts among the first `n` that ended by the idle timeout. */
  ghost function Idles(env: nat -> Attempt, n: nat): nat {
    if n == 0 then 0 else Idles(env, n - 1) + if EndsIdle(env(n - 1)) then 1 else 0
  }

  /** The attempts so far were paid for by messages read or failures counted. */
  ghost predicate Affords(log: seq<Message>, env: nat -> Attempt, used: nat, pos: nat, failed: nat) {
    used - Idles(env, used) + Rank(log, pos, failed) <= Rank(log, 0, 0)
  }

  lemma AttemptIsPaid(log: seq<Message>, env: nat -> Attempt, used: nat, pos: nat, failed: nat, pos': nat, failed': nat)
    requires Affords(log, env, used, pos, failed)
    requires Rank(log, pos', failed') < Rank(log, pos, failed) || (EndsIdle(env(used)) && Rank(log, pos', failed') <= Rank(log, pos, failed))
    ensures Affords(log, env, used + 1, pos', failed')
  {
  }

  lemma DeliveredIsPrefix(log: seq<Message>, stop: Option<nat>, outcome: Outcome, p: Progress)
    requires Sane(log, stop, outcome, p)
    ensures p.delivered <= Wanted(log, stop)
  {
    WantedIsPrefix(log, p.pos, |log|, stop);
  }

  /** The loop has made `used` attempts: each but the last left the stream running, and the last one
      had this outcome. */
  ghost predicate Made(s: Stream, used: nat, outcome: Outcome) {
    if used == 0 then outcome == Running else Made(s, used - 1, Running) && s.DecidesAt(used - 1, outcome)
  }

  lemma {:induction false} EarlierRan(s: Stream, used: nat, outcome: Outcome, i: nat)
    requires Made(s, used, outcome) && i + 1 < used
    ensures s.DecidesAt(i, Running)
  {
    if i + 2 < used { EarlierRan(s, used - 1, Running, i); }
  }

  /** The mutable state of the loop is what the attempts so far make it. */
  ghost predicate Tracks(s: Stream, used: nat, resumed: bool, failed: nat, stall: Option<nat>) {
    (resumed <==> s.Resumed(used)) && failed == s.Failures(used) && stall == s.Stall(used)
  }

  lemma NextTracks(s: Stream, used: nat, resumed: bool, failed: nat, stall: Option<nat>, resumed': bool, failed': nat, stall': Option<nat>)
    requires Tracks(s, used, resumed, failed, stall)
    requires Counted(s.Hears(used), s.Counts(used), s.clock(used), failed, stall, failed', stall')
    requires resumed' <==> resumed || (EndsClosed(s.env(used)) && s.stop.Some?)
    ensures Tracks(s, used + 1, resumed', failed', stall')
  {
    NextResumed(s, used);
  }

  lemma NextResumed(s: Stream, used: nat)
    ensures s.Resumed(used + 1) <==> s.Resumed(used) || (EndsClosed(s.env(used)) && s.stop.Some?)
  {
    if s.Resumed(used) {
      var i: nat :| i < used && EndsClosed(s.env(i));
      assert i < used + 1;
    }
  }

  /** An attempt that leaves the stream running ended idle, failed, or received a message. */
  lemma RunningMeans(s: Stream, n: nat)
    requires s.DecidesAt(n, Running)
    ensures EndsIdle(s.env(n)) || s.Counts(n) || s.Hears(n)
    ensures s.Hears(n) ==> s.Cursor(n + 1) > s.Cursor(n)
  {
    Unfolded(s, n, Running);
  }

  lemma Unfolded(s: Stream, n: nat, outcome: Outcome)
    requires s.DecidesAt(n, outcome)
    ensures Decides(s.log, s.stop, s.Cursor(n), s.env(n), s.Resumed(n), s.AtLimit(n), outcome)
  {
  }

  /** What is left shrinks with every attempt that leaves the stream running, unless it ends idle. */
  lemma AttemptCosts(s: Stream, used: nat)
    requires EndsIdle(s.env(used)) || s.Counts(used) || s.Hears(used)
    requires s.Hears(used) ==> s.Cursor(used + 1) > s.Cursor(used)
    requires s.Failures(used) < MAX_FAILED_ATTEMPTS
    ensures Rank(s.log, s.Cursor(used + 1), s.Failures(used + 1)) <= Rank(s.log, s.Cursor(used), s.Failures(used))
    ensures !EndsIdle(s.env(used)) ==>
              Rank(s.log, s.Cursor(used + 1), s.Failures(used + 1)) < Rank(s.log, s.Cursor(used), s.Failures(used))
  {
    assert s.Cursor(used + 1) >= s.Cursor(used);
    assert EndsIdle(s.env(used)) ==> !s.Counts(used);
  }

  /** One step of the loop, as the attempts themselves tell it. */
  method NextAttempt(s: Stream, rc: ReconnectState, used: nat, before: Progress, resumed: bool)
    returns (outcome: Outcome, p: Progress, next: bool)
    requires rc.Valid() && rc.stallTimeout == s.limit
    requires Exact(s.log, s.stop, before) && before.pos == s.Cursor(used)
    requires Tracks(s, used, resumed, rc.failedAttempts, rc.stallStartedAt)
    modifies rc
    ensures s.DecidesAt(used, outcome)
    ensures Sane(s.log, s.stop, outcome, p) && p.pos == s.Cursor(used + 1)
    ensures outcome == Running ==> rc.Valid() && Tracks(s, used + 1, next, rc.failedAttempts, rc.stallStartedAt)
  {
    ghost var failed, stall := rc.failedAttempts, rc.stallStartedAt;
    outcome, p, next := OneAttempt(s.log, s.stop, s.env(used), s.clock(used), before, resumed, rc);
    if outcome == Running { NextTracks(s, used, resumed, failed, stall, next, rc.failedAttempts, rc.stallStartedAt); }
  }

  /** The outer loop: attempts until one of them decides, at most `steps` of them. */
  method Attempts(s: Stream, rc: ReconnectState, steps: nat) returns (outcome: Outcome, p: Progress, used: nat)
    requires rc.Valid() && rc.failedAttempts == 0 && rc.stallTimeout == s.limit
    modifies rc
    ensures used <= steps && (outcome == Running ==> used == steps)
    ensures Made(s, used, outcome)
    ensures Sane(s.log, s.stop, outcome, p) && p.pos == s.Cursor(used)
    ensures outcome == Running ==> Affords(s.log, s.env, used, p.pos, s.Failures(used)) && s.Failures(used) < MAX_FAILED_ATTEMPTS
  {
    outcome, p, used := Running, Progress(0, None, []), 0;
    var resumed := false;
    while used < steps && outcome == Running
      invariant used <= steps
      invariant Made(s, used, outcome)
      invariant Sane(s.log, s.stop, outcome, p) && p.pos == s.Cursor(used)
      invariant outcome == Running ==> rc.Valid() && Tracks(s, used, resumed, rc.failedAttempts, rc.stallStartedAt)
      invariant outcome == Running ==> Affords(s.log, s.env, used, p.pos, s.Failures(used))
      decreases steps - used
    {
      var next;
      outcome, p, next := NextAttempt(s, rc, used, p, resumed);
      if outcome == Running {
        RunningMeans(s, used);
        AttemptCosts(s, used);
        AttemptIsPaid(s.log, s.env, used, s.Cursor(used), s.Failures(used), p.pos, s.Failures(used + 1));
      }
      used, resumed := used + 1, next;
    }
  }

  /** What the server sends after the cursor at position `start` of its chain. */
  function Feed(chain: seq<Message>, start: nat, stop: Option<nat>): seq<Message>
    requires start <= |chain|
  {
    Served(chain[start..], RequestedStop(stop))
  }

  /** The attempt is not cancelled, not fatal, not a handler error and not a clean close. */
  predicate Harmless(a: Attempt) {
    a.NoConnection? || a == NoStream(false) || EndsIdle(a) || (a.Session? && a.end == Failed(false))
  }

  /** The chain after the start holds the last requested block or a later one, and is well-formed. */
  ghost predicate HoldsLast(log: seq<Message>, stop: Option<nat>) {
    && (forall i :: 0 <= i < |log| ==> log[i].hasMetadata)
    && stop.Some? && exists i :: 0 <= i < |log| && log[i].carriesBlock && log[i].num >= stop.value - 1
  }

  ghost predicate ServesAll(s: Stream, n: nat) {
    HoldsLast(s.log, s.stop) && EndsClosed(s.env(n)) && s.env(n).count >= |s.log|
  }

  /** Attempt `n` serves the whole rest of the log and closes cleanly, after attempts that were at worst
      harmless and never too many failures in a row. */
  ghost predicate WillFinish(s: Stream, n: nat) {
    && ServesAll(s, n)
    && (forall i: nat {:trigger Passes(s, i)} :: i < n ==> Passes(s, i))
  }

  /** Attempt `i` is harmless and not one failure too many. */
  ghost predicate Passes(s: Stream, i: nat) {
    Harmless(s.env(i)) && s.Failures(i + 1) < MAX_FAILED_ATTEMPTS
  }

  lemma {:induction false} ReadsAll(log: seq<Message>, from: nat, count: nat)
    requires from <= |log| && count >= |log| - from && forall i :: 0 <= i < |log| ==> log[i].hasMetadata
    ensures EndOfRead(log, from, count) == |log|
  {
    EndOfReadIsFirst(log, from, count);
  }

  lemma LastIsReached(log: seq<Message>, stop: Option<nat>)
    requires HoldsLast(log, stop)
    ensures Reached(stop, HighestBy(log, |log|))
  {
    var i :| 0 <= i < |log| && log[i].carriesBlock && log[i].num >= stop.value - 1;
    HighestIsMaximum(log, |log|);
    assert log[i].num <= HighestBy(log, |log|).value;
  }

  /** Without a stall timeout, a harmless attempt below the failure limit leaves the stream running. */
  lemma HarmlessGoesOn(s: Stream, i: nat, outcome: Outcome)
    requires HoldsLast(s.log, s.stop) && s.limit == None
    requires Passes(s, i) && s.DecidesAt(i, outcome)
    ensures outcome == Running
  {
    Unfolded(s, i, outcome);
    if s.env(i).Session? { EndOfReadIsFirst(s.log, s.Cursor(i), s.env(i).count); }
  }

  lemma FinishingCompletes(s: Stream, n: nat, outcome: Outcome)
    requires ServesAll(s, n) && s.DecidesAt(n, outcome)
    ensures outcome == Complete
  {
    Unfolded(s, n, outcome);
    ReadsAll(s.log, s.Cursor(n), s.env(n).count);
    LastIsReached(s.log, s.stop);
  }

  lemma NotRunning(s: Stream, n: nat)
    requires ServesAll(s, n)
    ensures !s.DecidesAt(n, Running)
  {
    if s.DecidesAt(n, Running) { FinishingCompletes(s, n, Running); }
  }

  /** A stream without a stall timeout completes at an attempt that serves the rest and closes, however
      many harmless attempts came before it. */
  lemma StreamCompletes(s: Stream, used: nat, outcome: Outcome, n: nat)
    requires Made(s, used, outcome) && s.limit == None && WillFinish(s, n) && used > 0
    requires outcome == Running ==> used > n
    ensures outcome == Complete && used == n + 1
  {
    DecidedLate(s, used, outcome, n);
    if used - 1 == n {
      FinishingCompletes(s, n, outcome);
    } else {
      NotRunning(s, n);
      EarlierRan(s, used, outcome, n);
    }
  }

  lemma DecidedLate(s: Stream, used: nat, outcome: Outcome, n: nat)
    requires Made(s, used, outcome) && s.limit == None && WillFinish(s, n) && used > 0
    ensures used > n || outcome == Running
  {
    if used - 1 < n {
      assert Passes(s, used - 1);
      HarmlessGoesOn(s, used - 1, outcome);
    }
  }

  /** The first `steps` connection attempts of a stream that starts after position `start` of the
      server's chain. `env` and `clock` are arbitrary: they decide how and when each attempt goes. A
      stall timeout of 0 means none. Positions count the messages sent after `start`. */
  method StreamBlocks(chain: seq<Message>, start: nat, stop: Option<nat>, stallTimeout: Option<nat>,
                      env: nat -> Attempt, clock: nat -> nat, steps: nat)
    returns (outcome: Outcome, p: Progress, used: nat, ghost s: Stream)
    requires start <= |chain|
    ensures s == Stream(Feed(chain, start, stop), stop, if stallTimeout == Some(0) then None else stallTimeout, env, clock)
    // Every attempt but the last left the stream running, and the last had this outcome: no attempt is
    // skipped, given up, rejected or counted otherwise than the attempts themselves say.
    ensures used <= steps && (outcome == Running ==> used == steps)
    ensures Made(s, used, outcome)
    // Exactly once, in order: the handler's calls are a prefix of what it must see, and they are
    // exactly the wanted messages up to the cursor, plus the one a failing handler was called with.
    ensures p.delivered <= Wanted(chain[start..], stop)
    ensures Sane(s.log, stop, outcome, p) && p.pos == s.Cursor(used)
    // A live stream never finishes on its own.
    ensures outcome == Complete || outcome == Exhausted ==> stop.Some?
    // A complete final-only run handed over every block below the stop.
    ensures outcome == Complete && Ascending(chain[start..]) ==> p.delivered == Wanted(chain[start..], stop)
    // And without a stall timeout an attempt that serves the rest and closes does complete it, however
    // many harmless attempts came before.
    ensures s.limit == None ==> forall n: nat {:trigger WillFinish(s, n)} :: n < steps && WillFinish(s, n) ==> outcome == Complete && used == n + 1
    // Giving up takes the last allowed failure since the last message, or the stall timeout.
    ensures outcome == GaveUp ==> 0 < used && s.Counts(used - 1) && s.AtLimit(used - 1)
    ensures outcome == GaveUp && s.limit == None ==> s.Failures(used) >= MAX_FAILED_ATTEMPTS
    // It returns: every attempt that is not an idle timeout uses up messages or allowed failures.
    ensures steps - Idles(env, steps) >= Rank(s.log, 0, 0) ==> outcome != Running
  {
    var rc := new ReconnectState(if stallTimeout == Some(0) then None else stallTimeout);
    var stream := Stream(Feed(chain, start, stop), stop, rc.stallTimeout, env, clock);
    s := stream;
    outcome, p, used := Attempts(stream, rc, steps);
    if used > 0 { Unfolded(s, used - 1, outcome); }
    ServedIsEnough(chain[start..], stop);
    DeliveredIsPrefix(s.log, stop, outcome, p);
    if outcome == Complete && Ascending(chain[start..]) {
      ServedAscends(chain[start..], RequestedStop(stop));
      CompleteMeansAll(s.log, p.pos, stop.value);
    }
    forall n: nat | s.limit == None && n < steps && WillFinish(s, n) ensures outcome == Complete && used == n + 1 {
      StreamCompletes(s, used, outcome, n);
    }
  }
}
