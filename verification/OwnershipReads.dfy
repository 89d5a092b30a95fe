/** The readers of the shared bucket: the bounded readback that resolves a lost response and
    the double read behind `recovery status`. Each read happens at some point of one run. */
module OwnershipReads {
  import opened Wrappers
  import opened ConditionalStore
  import opened OwnershipProtocol
  import opened OwnershipInvariant
  import opened OwnershipSteps
  import opened OwnershipTheorems

  // ------------------------------------------------- readback

  /** One read of the owner key: it fails and may succeed later, it meets an object that is too large
      or has no usable version, or it gives the stored contents. */
  datatype Answer = Lost | Unusable | Good

  /** `Stopped` gives up on an unusable object, which can never become proof. */
  datatype Verdict = Proven(version: OwnerRecord) | Disproved(at: nat) | Stopped(at: nat) | Unresolved

  lemma {:induction false} SentGrows(w: World, actions: seq<Action>)
    ensures w.sent <= Run(w, actions).sent
    decreases |actions|
  {
    if actions != [] {
      assert w.sent <= Step(w, actions[0]).sent;
      SentGrows(Step(w, actions[0]), actions[1..]);
    }
  }

  /** Reading exactly the proposed owner record proves that this very PUT was applied last. */
  lemma ExactOwnerIsApplied(w: World, p: OwnerPut)
    requires Inv(w) && OwnerRequest(p) in w.sent && Stored(w.owner) == Some(p.content)
    ensures AppliedLast(w, p)
  {
    var q := w.owner[|w.owner| - 1];
    assert OwnerRequest(q) in w.sent && RequestOk(w, OwnerRequest(p)) && RequestOk(w, OwnerRequest(q));
    if p.content.state == Owned { assert SameAcquisition(OwnerRequest(p), OwnerRequest(q)); }
  }

  lemma OwnerSpentForever(w: World, more: seq<Action>, c: Condition<OwnerRecord>)
    requires Inv(w) && Spent(w.owner, c)
    ensures !Accepts(Run(w, more).owner, c)
  {
    RunHistory(w, more);
    OwnerNeverRepeats(Run(w, more).owner);
    PrefixSpent(w.owner, Run(w, more).owner, c);
    SpentIsRefused(Run(w, more).owner, c);
  }

  /** A record that is neither the proposed one nor the expected one ends the request for good. */
  lemma OtherRecordRefutes(w: World, p: OwnerPut)
    requires Inv(w) && OwnerRequest(p) in w.sent
    requires Observe(p, Some(p.content), Some(Stored(w.owner))) == Refuted
    ensures NeverAgain(w, p)
  {
    assert RequestOk(w, OwnerRequest(p));
    if p.condition.IfMatch? { LeftIsSpent(w.owner, p.condition.version); }
    forall more ensures !Accepts(Run(w, more).owner, p.condition) { OwnerSpentForever(w, more, p.condition); }
  }

  ghost function Previous(start: World, visits: seq<World>, i: int): World
    requires 0 <= i <= |visits|
  {
    if i == 0 then start else visits[i - 1]
  }

  /** The visited worlds follow each other in one run from `start`. */
  ghost predicate Visits(start: World, gaps: seq<seq<Action>>, visits: seq<World>) {
    && |gaps| == |visits|
    && forall i {:trigger Previous(start, visits, i)} :: 0 <= i < |visits| ==>
         visits[i] == Run(Previous(start, visits, i), gaps[i])
  }

  lemma {:induction false} VisitIsReached(start: World, gaps: seq<seq<Action>>, visits: seq<World>, i: nat)
    requires Inv(start) && Visits(start, gaps, visits) && i < |visits|
    ensures Inv(visits[i]) && start.sent <= visits[i].sent
  {
    var before := Previous(start, visits, i);
    if i > 0 { VisitIsReached(start, gaps, visits, i - 1); }
    assert visits[i] == Run(before, gaps[i]);
    RunKeepsInv(before, gaps[i]);
    SentGrows(before, gaps[i]);
  }

  ghost predicate AppliedLast(w: World, p: OwnerPut) {
    w.owner != [] && w.owner[|w.owner| - 1] == p
  }

  /** From `w` on, executing the PUT changes nothing in any run. */
  ghost predicate NeverAgain(w: World, p: OwnerPut) {
    forall more :: !Accepts(Run(w, more).owner, p.condition)
  }

  /** What one readback at the `i`-th visit is worth. */
  lemma ObservationIsSound(past: seq<Action>, gaps: seq<seq<Action>>, visits: seq<World>, i: nat, p: OwnerPut,
                           acknowledged: bool, answered: bool)
    requires OwnerRequest(p) in Run(EmptyBucket, past).sent
    requires Visits(Run(EmptyBucket, past), gaps, visits) && i < |visits|
    ensures match Observe(p, Report(p, acknowledged), Look(visits[i].owner, answered))
            case Exact => answered && AppliedLast(visits[i], p)
            case Refuted => NeverAgain(visits[i], p)
            case Pending => answered ==> Accepts(visits[i].owner, p.condition)
  {
    RunKeeps(past);
    VisitIsReached(Run(EmptyBucket, past), gaps, visits, i);
    match Observe(p, Report(p, acknowledged), Look(visits[i].owner, answered))
    case Exact => ExactOwnerIsApplied(visits[i], p);
    case Refuted => OtherRecordRefutes(visits[i], p);
    case Pending =>
  }

  /** After the PUT was sent, read the owner key in each visited world in turn;
      `answers[i]` says how that read went. */
  method WriteAndVerify(p: OwnerPut, acknowledged: bool, answers: seq<Answer>, visits: seq<World>,
                        ghost past: seq<Action>, ghost gaps: seq<seq<Action>>)
    returns (verdict: Verdict)
    requires OwnerRequest(p) in Run(EmptyBucket, past).sent
    requires Visits(Run(EmptyBucket, past), gaps, visits) && |answers| == |visits| == READBACKS
    // Ok: this request was applied, and the returned version is the one it wrote.
    ensures verdict.Proven? ==> verdict.version == p.content
                                && exists i :: 0 <= i < |visits| && answers[i].Good? && AppliedLast(visits[i], p)
    // Stopped early on another record: no copy of this request can ever take effect again.
    ensures verdict.Disproved? ==> verdict.at < |visits| && answers[verdict.at].Good?
                                   && NeverAgain(visits[verdict.at], p)
    // Stopped early on an unusable object: nothing is known, and nothing is claimed.
    ensures verdict.Stopped? ==> verdict.at < |visits| && answers[verdict.at].Unusable?
                                 && StillOpen(answers, visits, verdict.at, p)
    // Otherwise every read that worked still saw the request's precondition.
    ensures verdict.Unresolved? ==> StillOpen(answers, visits, READBACKS, p)
  {
    var i := 0;
    while i < READBACKS
      invariant 0 <= i <= READBACKS
      invariant StillOpen(answers, visits, i, p)
    {
      if answers[i].Unusable? { return Stopped(i); }
      ObservationIsSound(past, gaps, visits, i, p, acknowledged, answers[i].Good?);
      match Observe(p, Report(p, acknowledged), Look(visits[i].owner, answers[i].Good?)) {
        case Exact => return Proven(p.content);
        case Refuted => return Disproved(i);
        case Pending =>
      }
      i := i + 1;
    }
    verdict := Unresolved;
  }

  /** Each of the first `n` reads failed for now, or saw the precondition of the request. */
  ghost predicate StillOpen(answers: seq<Answer>, visits: seq<World>, n: nat, p: OwnerPut)
    requires n <= |answers| && n <= |visits|
  {
    forall i :: 0 <= i < n ==> answers[i].Lost? || (answers[i].Good? && Accepts(visits[i].owner, p.condition))
  }

  // ------------------------------------------------- recovery status

  datatype SlotSummary = Absent | Present(incarnation: Id, revision: nat)
  datatype Status = Status(owner: Option<OwnerRecord>, state: SlotSummary, pending: SlotSummary)
  datatype StatusResult = ReadFailed | Torn | Reported(status: Status)

  function Summary(r: Option<SlotRecord>): SlotSummary {
    if r.Some? && r.value.payload.Some? then Present(r.value.incarnation, r.value.revision) else Absent
  }

  /** A slot shows up with the incarnation and revision of its record exactly when that record is live:
      an empty slot and a tombstone are both absent. */
  ghost predicate Describes(s: SlotSummary, r: Option<SlotRecord>) {
    if r.Some? && r.value.payload.Some?
    then s.Present? && s.incarnation == r.value.incarnation && s.revision == r.value.revision
    else s == Absent
  }

  lemma RunPassesThrough(w: World, later: seq<Action>, n: nat)
    requires n <= |later|
    ensures Run(w, later) == Run(Run(w, later[..n]), later[n..])
  {
    RunSplits(w, later[..n], later[n..]);
    assert later[..n] + later[n..] == later;
  }

  /** Equal owner reads have seen no change in between. */
  lemma EqualReadsMeanUnchanged(w: World, later: seq<Action>, n: nat)
    requires Inv(w) && n <= |later| && Stored(Run(w, later).owner) == Stored(w.owner)
    ensures Run(w, later[..n]).owner == w.owner
  {
    RunPassesThrough(w, later, n);
    var u := Run(w, later[..n]);
    var v := Run(u, later[n..]);
    RunKeepsInv(w, later[..n]);
    RunHistory(w, later[..n]);
    RunHistory(u, later[n..]);
    OwnerNeverRepeats(v.owner);
  }

  lemma {:induction false} SlotsFrozen(w: World, later: seq<Action>, n: nat, k: SlotKey)
    requires Inv(w) && n <= |later| && Stored(Run(w, later).owner) == Stored(w.owner)
    requires Stored(w.owner).None? || Stored(w.owner).value.state == Released
    ensures Slot(Run(w, later[..n]), k) == Slot(w, k)
  {
    if n == 0 {
      assert later[..n] == [];
    } else {
      var before, a := later[..n - 1], later[n - 1];
      assert later[..n] == before + [a];
      SlotsFrozen(w, later, n - 1, k);
      EqualReadsMeanUnchanged(w, later, n - 1);
      StillAfterOne(w, before, a, k);
    }
  }

  lemma StillSlots(u: World, a: Action, k: SlotKey)
    requires Inv(u) && (Stored(u.owner).None? || Stored(u.owner).value.state == Released)
    ensures Slot(Step(u, a), k) == Slot(u, k)
  {
    if !a.Deliver? {
      SessionsDoNotWrite(u, a);
    } else if a.request in u.net && a.request.SlotRequest? {
      DeadForever(u, [], a.request);
    }
  }

  lemma StillAfterOne(w: World, actions: seq<Action>, a: Action, k: SlotKey)
    requires Inv(w) && Run(w, actions).owner == w.owner
    requires Stored(w.owner).None? || Stored(w.owner).value.state == Released
    ensures Slot(Run(w, actions + [a]), k) == Slot(Run(w, actions), k)
  {
    RunOneMore(w, actions, a);
    RunKeepsInv(w, actions);
    StillSlots(Run(w, actions), a, k);
  }

  /** `owner` was stored at every point of the run from `w` through `later`. */
  ghost predicate OwnerThroughout(w: World, later: seq<Action>, owner: Option<OwnerRecord>) {
    forall n {:trigger later[..n]} :: 0 <= n <= |later| ==> Stored(Run(w, later[..n]).owner) == owner
  }

  ghost predicate SlotThroughout(w: World, later: seq<Action>, k: SlotKey, s: SlotSummary) {
    forall n {:trigger later[..n]} :: 0 <= n <= |later| ==> Describes(s, Stored(Slot(Run(w, later[..n]), k)))
  }

  lemma OwnerStable(w: World, later: seq<Action>)
    requires Inv(w) && Stored(Run(w, later).owner) == Stored(w.owner)
    ensures OwnerThroughout(w, later, Stored(w.owner))
  {
    forall n | 0 <= n <= |later| ensures Stored(Run(w, later[..n]).owner) == Stored(w.owner) {
      EqualReadsMeanUnchanged(w, later, n);
    }
  }

  lemma SlotStable(w: World, later: seq<Action>, k: SlotKey, n: nat)
    requires Inv(w) && Stored(Run(w, later).owner) == Stored(w.owner) && n <= |later|
    requires Stored(w.owner).None? || Stored(w.owner).value.state == Released
    ensures SlotThroughout(w, later, k, Summary(Stored(Slot(Run(w, later[..n]), k))))
  {
    SlotsFrozen(w, later, n, k);
    forall m | 0 <= m <= |later| ensures Slot(Run(w, later[..m]), k) == Slot(w, k) { SlotsFrozen(w, later, m, k); }
  }

  /** The four reads of `recovery status`: owner, state, pending, owner again. `worked` says which of
      them give a well-formed record or absence. */
  method RemoteStatus(w0: World, w1: World, w2: World, w3: World, state: SlotKey, pending: SlotKey,
                      worked: (bool, bool, bool, bool),
                      ghost past: seq<Action>, ghost later: seq<Action>, ghost at: (nat, nat))
    returns (result: StatusResult)
    requires at.0 <= |later| && at.1 <= |later|
    requires w0 == Run(EmptyBucket, past) && w1 == Run(w0, later[..at.0]) && w2 == Run(w0, later[..at.1])
    requires w3 == Run(w0, later)
    // It fails exactly when a read fails or the owner record changed.
    ensures result == ReadFailed <==> !(worked.0 && worked.1 && worked.2 && worked.3)
    ensures result == Torn <==> result != ReadFailed && Stored(w3.owner) != Stored(w0.owner)
    // The reported owner, or absence, was stored at every point between the first and the last read.
    ensures result.Reported? ==> OwnerThroughout(w0, later, result.status.owner)
    // With no current owner the whole status is one consistent snapshot.
    ensures result.Reported? && (result.status.owner.None? || result.status.owner.value.state == Released) ==>
              && SlotThroughout(w0, later, state, result.status.state)
              && SlotThroughout(w0, later, pending, result.status.pending)
    // A slot read while a record is Owned is what the slot held at that read.
    ensures result.Reported? ==> Describes(result.status.state, Stored(Slot(w1, state)))
                                 && Describes(result.status.pending, Stored(Slot(w2, pending)))
  {
    if !worked.0 { return ReadFailed; }
    var record := Stored(w0.owner);
    if !worked.1 { return ReadFailed; }
    var first := Summary(Stored(Slot(w1, state)));
    if !worked.2 { return ReadFailed; }
    var second := Summary(Stored(Slot(w2, pending)));
    if !worked.3 { return ReadFailed; }
    if Stored(w3.owner) != record { return Torn; }
    RunKeeps(past);
    OwnerStable(w0, later);
    if record.None? || record.value.state == Released {
      SlotStable(w0, later, state, at.0);
      SlotStable(w0, later, pending, at.1);
    }
    result := Reported(Status(record, first, second));
  }
}
