/** What a call achieves: the protocol is not safe by never doing anything. Each lemma plays one call
    of one session from a world it may be in. Its request is executed late, after some reads that
    failed or came too early, and its response may be lost. */
module OwnershipProgress {
  import opened Wrappers
  import opened Shared
  import opened ConditionalStore
  import opened OwnershipProtocol
  import opened OwnershipInvariant
  import opened OwnershipSteps
  import opened OwnershipTheorems
  import opened OwnershipCalls

  // ------------------------------------------------- runs in pieces

  lemma RunOfTwo(w: World, a: Action, b: Action)
    ensures Run(w, [a, b]) == Step(Step(w, a), b)
  {
    assert [a, b][1..] == [b] && [b][1..] == [];
    assert Run(Step(w, a), [b]) == Run(Step(Step(w, a), b), []);
  }

  // ------------------------------------------------- acquiring

  /** A free bucket: no record, or a released one with a generation left. */
  ghost predicate Free(w: World) {
    Stored(w.owner).None? || (Stored(w.owner).value.state == Released && Stored(w.owner).value.generation < MAX_U64)
  }

  ghost function NextGeneration(w: World): nat {
    if Stored(w.owner).None? then 1 else Stored(w.owner).value.generation + 1
  }

  /** Reads of the owner key that fail (false) or come before the request is executed (true). */
  ghost function AcquireReads(id: Id, early: seq<bool>, acknowledged: bool): seq<Action> {
    seq(|early|, i requires 0 <= i < |early| => ConfirmAcquire(id, early[i], acknowledged))
  }

  lemma AcquireWaitsOnce(w: World, id: Id, put: OwnerPut, tries: nat, read: bool, acknowledged: bool)
    requires InPhase(w, id, Acquiring(put, tries)) && Accepts(w.owner, put.condition) && Stored(w.owner) != Some(put.content)
    ensures Step(w, ConfirmAcquire(id, read, acknowledged))
            == Move(w, id, if tries <= 1 then Gone else Acquiring(put, tries - 1))
  {
  }

  lemma {:induction false} AcquireWaits(w: World, id: Id, put: OwnerPut, tries: nat, early: seq<bool>, acknowledged: bool)
    requires InPhase(w, id, Acquiring(put, tries)) && Accepts(w.owner, put.condition) && Stored(w.owner) != Some(put.content)
    requires |early| <= tries && tries > 0
    ensures Run(w, AcquireReads(id, early, acknowledged))
            == Move(w, id, if |early| == tries then Gone else Acquiring(put, tries - |early|))
    decreases |early|
  {
    if early != [] {
      AcquireWaitsOnce(w, id, put, tries, early[0], acknowledged);
      assert AcquireReads(id, early, acknowledged)[1..] == AcquireReads(id, early[1..], acknowledged);
      if tries > 1 {
        AcquireWaits(Move(w, id, Acquiring(put, tries - 1)), id, put, tries - 1, early[1..], acknowledged);
      } else {
        assert early[1..] == [];
      }
    } else {
      assert w.sessions[id := Acquiring(put, tries)] == w.sessions;
    }
  }

  lemma AcquireSends(w: World, id: Id, scope: Scope)
    requires InPhase(w, id, Reading(scope)) && Free(w)
    ensures var put := AcquirePut(id, scope, Stored(w.owner));
            Run(w, [ReadOwner(id), SendAcquire(id)]) == Move(SendRequest(w, OwnerRequest(put)), id, Acquiring(put, READBACKS))
  {
    RunOfTwo(w, ReadOwner(id), SendAcquire(id));
    var v := Step(w, ReadOwner(id));
    assert v == Move(w, id, Qualified(scope, Stored(w.owner)));
  }

  lemma AcquireLands(w: World, id: Id, put: OwnerPut, tries: nat, acknowledged: bool)
    requires InPhase(w, id, Acquiring(put, tries)) && OwnerRequest(put) in w.net && Accepts(w.owner, put.condition)
    ensures var v := Run(w, [Deliver(OwnerRequest(put)), ConfirmAcquire(id, true, acknowledged)]);
            InPhase(v, id, Holding(put.content, false, Idle)) && Stored(v.owner) == Some(put.content)
  {
    RunOfTwo(w, Deliver(OwnerRequest(put)), ConfirmAcquire(id, true, acknowledged));
    assert Step(w, Deliver(OwnerRequest(put))) == w.(owner := w.owner + [put]);
  }

  lemma AcquireFinishes(u: World, id: Id, put: OwnerPut, early: seq<bool>, acknowledged: bool)
    requires InPhase(u, id, Acquiring(put, READBACKS)) && OwnerRequest(put) in u.net && |early| < READBACKS
    requires Accepts(u.owner, put.condition) && Stored(u.owner) != Some(put.content)
    ensures var v := Run(u, AcquireReads(id, early, acknowledged) + [Deliver(OwnerRequest(put)), ConfirmAcquire(id, true, acknowledged)]);
            InPhase(v, id, Holding(put.content, false, Idle)) && Stored(v.owner) == Some(put.content)
  {
    RunSplits(u, AcquireReads(id, early, acknowledged), [Deliver(OwnerRequest(put)), ConfirmAcquire(id, true, acknowledged)]);
    AcquireWaits(u, id, put, READBACKS, early, acknowledged);
    AcquireLands(Move(u, id, Acquiring(put, READBACKS - |early|)), id, put, READBACKS - |early|, acknowledged);
  }

  /** Acquiring a free bucket yields the guard of the next generation, although up to four readbacks
      fail or come too early. */
  lemma AcquireSucceeds(w: World, id: Id, scope: Scope, early: seq<bool>, acknowledged: bool)
    requires InPhase(w, id, Reading(scope)) && Free(w) && |early| < READBACKS
    ensures var put := AcquirePut(id, scope, Stored(w.owner));
            var v := Run(Run(w, [ReadOwner(id), SendAcquire(id)]), AcquireReads(id, early, acknowledged)
                         + [Deliver(OwnerRequest(put)), ConfirmAcquire(id, true, acknowledged)]);
            var owned := OwnerRecord(NextGeneration(w), id, Owned, scope, None);
            InPhase(v, id, Holding(owned, false, Idle)) && Stored(v.owner) == Some(owned)
  {
    var put := AcquirePut(id, scope, Stored(w.owner));
    AcquireSends(w, id, scope);
    AcquireFinishes(Move(SendRequest(w, OwnerRequest(put)), id, Acquiring(put, READBACKS)), id, put, early, acknowledged);
  }

  /** After five readbacks without proof an acquisition gives up, and its session is over. */
  lemma AcquireGivesUp(w: World, id: Id, scope: Scope, early: seq<bool>, acknowledged: bool)
    requires InPhase(w, id, Reading(scope)) && Free(w) && |early| == READBACKS
    ensures var v := Run(w, [ReadOwner(id), SendAcquire(id)] + AcquireReads(id, early, acknowledged));
            InPhase(v, id, Gone) && v.owner == w.owner
  {
    var put := AcquirePut(id, scope, Stored(w.owner));
    RunSplits(w, [ReadOwner(id), SendAcquire(id)], AcquireReads(id, early, acknowledged));
    AcquireSends(w, id, scope);
    AcquireWaits(Move(SendRequest(w, OwnerRequest(put)), id, Acquiring(put, READBACKS)), id, put, READBACKS, early, acknowledged);
  }

  /** There is no takeover: a session that reads an Owned record, or one without a generation left,
      ends there, and no request of it is sent or stored in any continuation. */
  lemma OwnedBucketIsBusy(actions: seq<Action>, id: Id, scope: Scope, more: seq<Action>)
    requires var w := Run(EmptyBucket, actions); InPhase(w, id, Reading(scope)) && !Free(w)
    ensures var v := Run(Step(Run(EmptyBucket, actions), ReadOwner(id)), more);
            && InPhase(v, id, Gone)
            && (forall r :: r in v.sent ==> r.From() != Session(id))
            && (forall i :: 0 <= i < |v.owner| ==> v.owner[i].writer != Session(id) && v.owner[i].content.owner != id)
  {
    RunKeeps(actions);
    var w := Run(EmptyBucket, actions);
    var u := Step(w, ReadOwner(id));
    var v := Run(u, more);
    StepKeeps(w, ReadOwner(id));
    RunKeepsInv(u, more);
    assert PhaseOk(w, id, Reading(scope)) && InPhase(u, id, Gone);
    NeverSent(u, more, id);
    forall i | 0 <= i < |v.owner| ensures v.owner[i].writer != Session(id) && v.owner[i].content.owner != id {
      OwnerWroteFirst(v, i);
    }
  }

  lemma NeverSent(u: World, more: seq<Action>, id: Id)
    requires Inv(u) && InPhase(u, id, Gone) && forall r :: r in u.sent ==> r.From() != Session(id)
    ensures InPhase(Run(u, more), id, Gone)
    ensures forall r :: r in Run(u, more).sent ==> r.From() != Session(id)
  {
    EndedSendsNothing(u, more, id, Gone, SlotRequest(0, Put(Session(id), SlotRecord(0, 0, None), IfAbsent)));
    forall r | r in Run(u, more).sent ensures r.From() != Session(id) {
      if r.From() == Session(id) { EndedSendsNothing(u, more, id, Gone, r); }
    }
  }

  /** Every owner record goes back to an acquisition that its owner itself sent. */
  lemma OwnerWroteFirst(v: World, i: int)
    requires Inv(v) && 0 <= i < |v.owner|
    ensures OwnerRequest(v.owner[i]) in v.sent
    ensures exists r :: r in v.sent && r.From() == Session(v.owner[i].content.owner)
  {
    OwnerAlternates(v.owner, i);
    var j := if i % 2 == 0 then i else i - 1;
    OwnerAlternates(v.owner, j);
    assert OwnerShape(v.owner[j]);
    assert OwnerRequest(v.owner[j]) in v.sent && OwnerRequest(v.owner[j]).From() == Session(v.owner[i].content.owner);
  }

  // ------------------------------------------------- releasing

  /** Attempts of a release that cannot read the owner record. */
  ghost function FailedRounds(id: Id, n: nat): seq<Action> {
    seq(n, i requires 0 <= i < n => ReleaseRead(id, false))
  }

  lemma {:induction false} ReleaseRetries(w: World, id: Id, owned: OwnerRecord, rounds: nat, n: nat)
    requires InPhase(w, id, Releasing(owned, rounds, None)) && n <= rounds && rounds > 0
    ensures Run(w, FailedRounds(id, n)) == Move(w, id, if n == rounds then Gone else Releasing(owned, rounds - n, None))
    decreases n
  {
    if n == 0 {
      assert w.sessions[id := Releasing(owned, rounds, None)] == w.sessions;
    } else {
      assert FailedRounds(id, n)[1..] == FailedRounds(id, n - 1);
      assert Step(w, ReleaseRead(id, false)) == Move(w, id, if rounds == 1 then Gone else Releasing(owned, rounds - 1, None));
      if rounds > 1 { ReleaseRetries(Move(w, id, Releasing(owned, rounds - 1, None)), id, owned, rounds - 1, n - 1); }
    }
  }

  ghost function ReleaseReads(id: Id, early: seq<bool>, acknowledged: bool): seq<Action> {
    seq(|early|, i requires 0 <= i < |early| => ConfirmRelease(id, early[i], acknowledged))
  }

  /** Where a release stands after its readbacks of one round were all used up. */
  ghost function NextRound(owned: OwnerRecord, rounds: nat): Phase {
    if rounds <= 1 then Gone else Releasing(owned, rounds - 1, None)
  }

  lemma ReleaseWaitsOnce(w: World, id: Id, owned: OwnerRecord, rounds: nat, tries: nat, read: bool, acknowledged: bool)
    requires InPhase(w, id, Releasing(owned, rounds, Some(tries))) && owned.state == Owned
    requires !read || Stored(w.owner) == Some(owned)
    ensures Step(w, ConfirmRelease(id, read, acknowledged))
            == Move(w, id, if tries <= 1 then NextRound(owned, rounds) else Releasing(owned, rounds, Some(tries - 1)))
  {
  }

  lemma {:induction false} ReleaseWaits(w: World, id: Id, owned: OwnerRecord, rounds: nat, tries: nat, early: seq<bool>, acknowledged: bool)
    requires InPhase(w, id, Releasing(owned, rounds, Some(tries))) && owned.state == Owned
    requires Stored(w.owner) == Some(owned) || forall i :: 0 <= i < |early| ==> !early[i]
    requires |early| <= tries && tries > 0
    ensures Run(w, ReleaseReads(id, early, acknowledged))
            == Move(w, id, if |early| == tries then NextRound(owned, rounds) else Releasing(owned, rounds, Some(tries - |early|)))
    decreases |early|
  {
    if early == [] {
      assert w.sessions[id := Releasing(owned, rounds, Some(tries))] == w.sessions;
    } else {
      ReleaseWaitsOnce(w, id, owned, rounds, tries, early[0], acknowledged);
      assert ReleaseReads(id, early, acknowledged)[1..] == ReleaseReads(id, early[1..], acknowledged);
      if tries > 1 {
        ReleaseWaits(Move(w, id, Releasing(owned, rounds, Some(tries - 1))), id, owned, rounds, tries - 1, early[1..], acknowledged);
      } else {
        assert early[1..] == [];
      }
    }
  }

  lemma ReleaseSends(w: World, id: Id, owned: OwnerRecord, rounds: nat)
    requires InPhase(w, id, Releasing(owned, rounds, None)) && rounds > 0 && Stored(w.owner) == Some(owned) && owned.state == Owned
    ensures Run(w, [ReleaseRead(id, true)])
            == Move(SendRequest(w, OwnerRequest(ReleasePut(owned))), id, Releasing(owned, rounds, Some(READBACKS)))
  {
    assert [ReleaseRead(id, true)][1..] == [];
    assert Run(w, [ReleaseRead(id, true)]) == Run(Step(w, ReleaseRead(id, true)), []);
  }

  lemma ReleaseLands(w: World, id: Id, owned: OwnerRecord, rounds: nat, tries: nat, acknowledged: bool)
    requires InPhase(w, id, Releasing(owned, rounds, Some(tries)))
    requires OwnerRequest(ReleasePut(owned)) in w.net && Stored(w.owner) == Some(owned)
    ensures var v := Run(w, [Deliver(OwnerRequest(ReleasePut(owned))), ConfirmRelease(id, true, acknowledged)]);
            InPhase(v, id, Ended(Some(AsReleased(owned)))) && Stored(v.owner) == Some(AsReleased(owned))
  {
    RunOfTwo(w, Deliver(OwnerRequest(ReleasePut(owned))), ConfirmRelease(id, true, acknowledged));
    assert Step(w, Deliver(OwnerRequest(ReleasePut(owned)))) == w.(owner := w.owner + [ReleasePut(owned)]);
  }

  lemma ReleaseStarts(w: World, id: Id, owned: OwnerRecord, lost: nat)
    requires InPhase(w, id, Holding(owned, false, Idle)) && lost <= RELEASE_ROUNDS
    ensures Run(w, [BeginRelease(id)] + FailedRounds(id, lost))
            == Move(w, id, if lost == RELEASE_ROUNDS then Gone else Releasing(owned, RELEASE_ROUNDS - lost, None))
  {
    var u := Move(w, id, Releasing(owned, RELEASE_ROUNDS, None));
    assert ([BeginRelease(id)] + FailedRounds(id, lost))[1..] == FailedRounds(id, lost);
    assert Step(w, BeginRelease(id)) == u;
    ReleaseRetries(u, id, owned, RELEASE_ROUNDS, lost);
  }

  lemma ReleaseFinishes(t: World, id: Id, owned: OwnerRecord, rounds: nat, early: seq<bool>, acknowledged: bool)
    requires InPhase(t, id, Releasing(owned, rounds, Some(READBACKS))) && OwnerRequest(ReleasePut(owned)) in t.net
    requires Stored(t.owner) == Some(owned) && owned.state == Owned && |early| < READBACKS
    ensures var v := Run(t, ReleaseReads(id, early, acknowledged)
                            + [Deliver(OwnerRequest(ReleasePut(owned))), ConfirmRelease(id, true, acknowledged)]);
            InPhase(v, id, Ended(Some(AsReleased(owned)))) && Stored(v.owner) == Some(AsReleased(owned))
  {
    RunSplits(t, ReleaseReads(id, early, acknowledged),
              [Deliver(OwnerRequest(ReleasePut(owned))), ConfirmRelease(id, true, acknowledged)]);
    ReleaseWaits(t, id, owned, rounds, READBACKS, early, acknowledged);
    ReleaseLands(Move(t, id, Releasing(owned, rounds, Some(READBACKS - |early|))), id, owned, rounds, READBACKS - |early|, acknowledged);
  }

  /** Releasing a guard with a clear latch leaves exactly its record, released, although up to four
      attempts cannot read the record and up to four readbacks fail or come too early. */
  lemma ReleaseSucceeds(w: World, id: Id, owned: OwnerRecord, lost: nat, early: seq<bool>, acknowledged: bool)
    requires Inv(w) && InPhase(w, id, Holding(owned, false, Idle)) && lost < RELEASE_ROUNDS && |early| < READBACKS
    ensures var u := Run(Run(w, [BeginRelease(id)] + FailedRounds(id, lost)), [ReleaseRead(id, true)]);
            var v := Run(u, ReleaseReads(id, early, acknowledged)
                            + [Deliver(OwnerRequest(ReleasePut(owned))), ConfirmRelease(id, true, acknowledged)]);
            InPhase(v, id, Ended(Some(AsReleased(owned)))) && Stored(v.owner) == Some(AsReleased(owned))
  {
    assert PhaseOk(w, id, w.sessions[id]);
    var rounds := RELEASE_ROUNDS - lost;
    var u := Move(w, id, Releasing(owned, rounds, None));
    ReleaseStarts(w, id, owned, lost);
    ReleaseSends(u, id, owned, rounds);
    var t := Move(SendRequest(u, OwnerRequest(ReleasePut(owned))), id, Releasing(owned, rounds, Some(READBACKS)));
    ReleaseFinishes(t, id, owned, rounds, early, acknowledged);
  }

  /** A release that cannot read the record five times gives up: the session is over, the record stays. */
  lemma ReleaseGivesUp(w: World, id: Id, owned: OwnerRecord)
    requires InPhase(w, id, Holding(owned, false, Idle))
    ensures var v := Run(w, [BeginRelease(id)] + FailedRounds(id, RELEASE_ROUNDS)); InPhase(v, id, Gone) && v.owner == w.owner
  {
    ReleaseStarts(w, id, owned, RELEASE_ROUNDS);
  }

  /** A release whose request landed, but whose readbacks all failed, recognises its own record in the
      next attempt. */
  lemma ReleaseRecognisesItself(w: World, id: Id, owned: OwnerRecord, rounds: nat, early: seq<bool>, acknowledged: bool)
    requires InPhase(w, id, Releasing(owned, rounds, Some(READBACKS))) && owned.state == Owned && rounds > 1
    requires Stored(w.owner) == Some(AsReleased(owned))
    requires |early| == READBACKS && forall i :: 0 <= i < |early| ==> !early[i]
    ensures InPhase(Run(w, ReleaseReads(id, early, acknowledged) + [ReleaseRead(id, true)]), id, Ended(Some(AsReleased(owned))))
  {
    ReleaseWaits(w, id, owned, rounds, READBACKS, early, acknowledged);
    RunOneMore(w, ReleaseReads(id, early, acknowledged), ReleaseRead(id, true));
  }

  /** A release that reads any other record, or none, stops at once and sends nothing more, ever. */
  lemma ReleaseStopsOnForeign(w: World, id: Id, owned: OwnerRecord, rounds: nat, more: seq<Action>, r: Request)
    requires Inv(w) && InPhase(w, id, Releasing(owned, rounds, None)) && rounds > 0
    requires Stored(w.owner) != Some(owned) && Stored(w.owner) != Some(AsReleased(owned))
    ensures var v := Run(Step(w, ReleaseRead(id, true)), more);
            InPhase(v, id, Gone) && (r.From() == Session(id) && r in v.sent ==> r in w.sent)
  {
    var u := Step(w, ReleaseRead(id, true));
    StepKeeps(w, ReleaseRead(id, true));
    assert u == Move(w, id, Gone);
    var any := if r.From() == Session(id) then r else SlotRequest(0, Put(Session(id), SlotRecord(0, 0, None), IfAbsent));
    EndedSendsNothing(u, more, id, Gone, any);
  }

  // ------------------------------------------------- control calls

  lemma ControlSends(w: World, id: Id, owned: OwnerRecord, key: SlotKey, call: SlotCall, incarnation: Id)
    requires InPhase(w, id, Holding(owned, false, Idle)) && Allowed(Stored(Slot(w, key)), call) && Fresh(w, incarnation)
    ensures var put := CallPut(w, id, key, call, incarnation);
            && Accepts(Slot(w, key), put.condition) && Stored(Slot(w, key)) != Some(put.content)
            && Run(w, [PrepareSlot(id, key, call), SendSlot(id, incarnation)])
               == Move(SendRequest(w, SlotRequest(key, put)), id, Holding(owned, false, Sent(key, put, READBACKS)))
  {
    var current := Stored(Slot(w, key));
    var put := CallPut(w, id, key, call, incarnation);
    RunOfTwo(w, PrepareSlot(id, key, call), SendSlot(id, incarnation));
    var plan := Plan(current, call).value;
    var v := Step(w, PrepareSlot(id, key, call));
    assert v == Move(w, id, Holding(owned, false, Prepared(key, plan.0, plan.1))) && Fresh(v, incarnation);
  }

  /** The request an allowed call sends: it names exactly what the slot holds. */
  ghost function CallPut(w: World, id: Id, key: SlotKey, call: SlotCall, incarnation: Id): SlotPut {
    var current := Stored(Slot(w, key));
    Put(Session(id), Result(call, incarnation), if current.None? then IfAbsent else IfMatch(current.value))
  }

  ghost function ControlReads(id: Id, early: seq<bool>, acknowledged: bool): seq<Action> {
    seq(|early|, i requires 0 <= i < |early| => ConfirmSlot(id, early[i], acknowledged))
  }

  lemma ControlWaitsOnce(w: World, id: Id, owned: OwnerRecord, key: SlotKey, put: SlotPut, tries: nat, read: bool, acknowledged: bool)
    requires InPhase(w, id, Holding(owned, false, Sent(key, put, tries))) && Stored(Slot(w, key)) != Some(put.content)
    ensures Step(w, ConfirmSlot(id, read, acknowledged))
            == Move(w, id, if tries <= 1 then Holding(owned, true, Idle) else Holding(owned, false, Sent(key, put, tries - 1)))
  {
  }

  lemma {:induction false} ControlWaits(w: World, id: Id, owned: OwnerRecord, key: SlotKey, put: SlotPut, tries: nat, early: seq<bool>, acknowledged: bool)
    requires InPhase(w, id, Holding(owned, false, Sent(key, put, tries))) && Stored(Slot(w, key)) != Some(put.content)
    requires |early| <= tries && tries > 0
    ensures Run(w, ControlReads(id, early, acknowledged))
            == Move(w, id, if |early| == tries then Holding(owned, true, Idle) else Holding(owned, false, Sent(key, put, tries - |early|)))
    decreases |early|
  {
    if early == [] {
      assert w.sessions[id := Holding(owned, false, Sent(key, put, tries))] == w.sessions;
    } else {
      ControlWaitsOnce(w, id, owned, key, put, tries, early[0], acknowledged);
      assert ControlReads(id, early, acknowledged)[1..] == ControlReads(id, early[1..], acknowledged);
      if tries > 1 {
        ControlWaits(Move(w, id, Holding(owned, false, Sent(key, put, tries - 1))), id, owned, key, put, tries - 1, early[1..], acknowledged);
      } else {
        assert early[1..] == [];
      }
    }
  }

  lemma ControlLands(w: World, id: Id, owned: OwnerRecord, key: SlotKey, put: SlotPut, tries: nat, acknowledged: bool)
    requires InPhase(w, id, Holding(owned, false, Sent(key, put, tries)))
    requires SlotRequest(key, put) in w.net && Accepts(Slot(w, key), put.condition)
    ensures Run(w, [Deliver(SlotRequest(key, put)), ConfirmSlot(id, true, acknowledged)])
            == Move(w, id, Holding(owned, false, Idle)).(slots := w.slots[key := Slot(w, key) + [put]],
                                                        oks := w.oks + [(key, put.condition)])
  {
    RunOfTwo(w, Deliver(SlotRequest(key, put)), ConfirmSlot(id, true, acknowledged));
    var v := w.(slots := w.slots[key := Slot(w, key) + [put]]);
    assert Step(w, Deliver(SlotRequest(key, put))) == v;
    ControlConfirms(v, id, owned, key, put, tries, acknowledged);
  }

  lemma ControlConfirms(v: World, id: Id, owned: OwnerRecord, key: SlotKey, put: SlotPut, tries: nat, acknowledged: bool)
    requires InPhase(v, id, Holding(owned, false, Sent(key, put, tries))) && Stored(Slot(v, key)) == Some(put.content)
    ensures Step(v, ConfirmSlot(id, true, acknowledged)) == Move(v, id, Holding(owned, false, Idle)).(oks := v.oks + [(key, put.condition)])
  {
  }

  lemma ControlFinishes(u: World, id: Id, owned: OwnerRecord, key: SlotKey, put: SlotPut, early: seq<bool>, acknowledged: bool)
    requires InPhase(u, id, Holding(owned, false, Sent(key, put, READBACKS))) && SlotRequest(key, put) in u.net
    requires Accepts(Slot(u, key), put.condition) && Stored(Slot(u, key)) != Some(put.content) && |early| < READBACKS
    ensures Run(u, ControlReads(id, early, acknowledged) + [Deliver(SlotRequest(key, put)), ConfirmSlot(id, true, acknowledged)])
            == Move(u, id, Holding(owned, false, Idle)).(slots := u.slots[key := Slot(u, key) + [put]],
                                                        oks := u.oks + [(key, put.condition)])
  {
    RunSplits(u, ControlReads(id, early, acknowledged), [Deliver(SlotRequest(key, put)), ConfirmSlot(id, true, acknowledged)]);
    ControlWaits(u, id, owned, key, put, READBACKS, early, acknowledged);
    var t := Move(u, id, Holding(owned, false, Sent(key, put, READBACKS - |early|)));
    ControlLands(t, id, owned, key, put, READBACKS - |early|, acknowledged);
    assert t.sessions[id := Holding(owned, false, Idle)] == u.sessions[id := Holding(owned, false, Idle)];
  }

  /** An allowed control call leaves exactly its result in the slot, although up to four readbacks fail
      or come too early; neither another slot nor the owner record nor the latch changes. */
  lemma ControlCallSucceeds(w: World, id: Id, owned: OwnerRecord, key: SlotKey, call: SlotCall, incarnation: Id,
                            early: seq<bool>, acknowledged: bool)
    requires InPhase(w, id, Holding(owned, false, Idle)) && Allowed(Stored(Slot(w, key)), call) && Fresh(w, incarnation)
    requires |early| < READBACKS
    ensures var put := CallPut(w, id, key, call, incarnation);
            var v := Run(Run(w, [PrepareSlot(id, key, call), SendSlot(id, incarnation)]), ControlReads(id, early, acknowledged)
                         + [Deliver(SlotRequest(key, put)), ConfirmSlot(id, true, acknowledged)]);
            && Stored(Slot(v, key)) == Some(Result(call, incarnation))
            && InPhase(v, id, Holding(owned, false, Idle)) && v.owner == w.owner
            && v.oks == w.oks + [(key, put.condition)]
            && forall k :: k != key ==> Slot(v, k) == Slot(w, k)
  {
    var put := CallPut(w, id, key, call, incarnation);
    ControlSends(w, id, owned, key, call, incarnation);
    ControlFinishes(Move(SendRequest(w, SlotRequest(key, put)), id, Holding(owned, false, Sent(key, put, READBACKS))),
                    id, owned, key, put, early, acknowledged);
  }

  /** A control call without proof after five readbacks latches its guard. */
  lemma UnresolvedCallLatches(w: World, id: Id, owned: OwnerRecord, key: SlotKey, call: SlotCall, incarnation: Id,
                              early: seq<bool>, acknowledged: bool)
    requires InPhase(w, id, Holding(owned, false, Idle)) && Allowed(Stored(Slot(w, key)), call) && Fresh(w, incarnation)
    requires |early| == READBACKS
    ensures var v := Run(w, [PrepareSlot(id, key, call), SendSlot(id, incarnation)] + ControlReads(id, early, acknowledged));
            InPhase(v, id, Holding(owned, true, Idle)) && v.slots == w.slots && v.oks == w.oks
  {
    var put := CallPut(w, id, key, call, incarnation);
    RunSplits(w, [PrepareSlot(id, key, call), SendSlot(id, incarnation)], ControlReads(id, early, acknowledged));
    ControlSends(w, id, owned, key, call, incarnation);
    var u := Move(SendRequest(w, SlotRequest(key, put)), id, Holding(owned, false, Sent(key, put, READBACKS)));
    ControlWaits(u, id, owned, key, put, READBACKS, early, acknowledged);
  }

  /** A control call refused with 401 or 403 leaves its guard ready: no latch, and nothing that could
      still land. A call dropped before its request was sent leaves it ready too; one dropped after
      latches it. */
  lemma InterruptedCall(w: World, id: Id, owned: OwnerRecord, key: SlotKey, call: SlotCall, incarnation: Id)
    requires InPhase(w, id, Holding(owned, false, Idle)) && Allowed(Stored(Slot(w, key)), call) && Fresh(w, incarnation)
    ensures var r := SlotRequest(key, CallPut(w, id, key, call, incarnation));
            var sent := Run(w, [PrepareSlot(id, key, call), SendSlot(id, incarnation)]);
            && r in sent.net
            && InPhase(Step(sent, RejectSlot(id)), id, Holding(owned, false, Idle)) && r !in Step(sent, RejectSlot(id)).net
            && InPhase(Step(sent, CancelSlot(id)), id, Holding(owned, true, Idle)) && r in Step(sent, CancelSlot(id)).net
            && Run(w, [PrepareSlot(id, key, call), CancelSlot(id)]) == w
  {
    ControlSends(w, id, owned, key, call, incarnation);
    RunOfTwo(w, PrepareSlot(id, key, call), CancelSlot(id));
    var plan := Plan(Stored(Slot(w, key)), call).value;
    assert Step(w, PrepareSlot(id, key, call)) == Move(w, id, Holding(owned, false, Prepared(key, plan.0, plan.1)));
    assert w.sessions[id := Holding(owned, false, Prepared(key, plan.0, plan.1))][id := Holding(owned, false, Idle)] == w.sessions;
  }

  // ------------------------------------------------- the latch

  /** Marking a guard uncertain is for good: in every continuation its Released record is never stored,
      and its Owned record stays until an operator releases a stopped and quiescent owner. */
  lemma MarkedNeverReleases(actions: seq<Action>, id: Id, owned: OwnerRecord, uncertain: bool, control: Control, more: seq<Action>)
    requires InPhase(Run(EmptyBucket, actions), id, Holding(owned, uncertain, control))
    ensures var w := Run(EmptyBucket, actions);
            var v := Run(Step(w, MarkUncertain(id)), more);
            && (forall i :: 0 <= i < |v.owner| ==> v.owner[i].content != AsReleased(owned))
            && w.owner <= v.owner
            && (v.owner == w.owner
                || (v.owner[|w.owner|].writer == Operator && v.owner[|w.owner|].content.recovery.Some?
                    && id in v.attested && Quiescent(v, id)))
  {
    var w := Run(EmptyBucket, actions);
    RunOneMore(EmptyBucket, actions, MarkUncertain(id));
    assert Step(w, MarkUncertain(id)) == Move(w, id, Holding(owned, true, control));
    LatchBlocksRelease(actions + [MarkUncertain(id)], id, owned, control, more);
  }

  /** Asking a latched guard to release ends its session: nothing is sent then or later. */
  lemma LatchedReleaseEnds(actions: seq<Action>, id: Id, owned: OwnerRecord, more: seq<Action>, r: Request)
    requires InPhase(Run(EmptyBucket, actions), id, Holding(owned, true, Idle)) && r.From() == Session(id)
    ensures var w := Run(EmptyBucket, actions);
            var v := Run(Step(w, BeginRelease(id)), more);
            InPhase(v, id, Gone) && (r in v.sent ==> r in w.sent)
  {
    RunKeeps(actions);
    var w := Run(EmptyBucket, actions);
    StepKeeps(w, BeginRelease(id));
    assert Step(w, BeginRelease(id)) == Move(w, id, Gone);
    EndedSendsNothing(Step(w, BeginRelease(id)), more, id, Gone, r);
  }
}
