/** The operator release, and that it suffices: from every reachable state the bucket can be owned
    again without breaking the protocol. */
module OwnershipRecovery {
  import opened Wrappers
  import opened Shared
  import opened ConditionalStore
  import opened OwnershipProtocol
  import opened OwnershipInvariant
  import opened OwnershipSteps
  import opened OwnershipTheorems
  import opened OwnershipProgress

  // ------------------------------------------------- the operator release

  /** An operator request is sent exactly for a record that was stored as Owned and whose owner was
      attested, and then it carries that record, released, with the receipt. */
  lemma OperatorSendsIff(w: World, expected: OwnerRecord, receipt: Receipt)
    requires Inv(w)
    ensures var r := OwnerRequest(Put(Operator, OwnerRecord(expected.generation, expected.owner, Released, expected.scope, Some(receipt)),
                                      IfMatch(expected)));
            var v := Step(w, OperatorRelease(expected, receipt));
            if expected.state == Owned && expected.owner in w.attested && Held(w.owner, expected)
            then r in v.net && v == w.(net := w.net + {r}, sent := w.sent + {r})
            else v == w
  {
  }

  /** The operator release of a stopped and quiescent owner leaves exactly its record, released and with
      the receipt; no session and no slot changes. */
  lemma OperatorReleaseSucceeds(w: World, owned: OwnerRecord, receipt: Receipt)
    requires Inv(w) && Stored(w.owner) == Some(owned) && owned.state == Owned && Quiescent(w, owned.owner)
    ensures var v := Run(Run(w, [Attest(owned.owner), OperatorRelease(owned, receipt)]), [Deliver(OwnerRequest(OperatorPut(owned, receipt)))]);
            && Stored(v.owner) == Some(OwnerRecord(owned.generation, owned.owner, Released, owned.scope, Some(receipt)))
            && v.sessions == w.sessions && v.slots == w.slots
  {
    var id, r := owned.owner, OwnerRequest(OperatorPut(owned, receipt));
    RunOfTwo(w, Attest(id), OperatorRelease(owned, receipt));
    StoredIsHeld(w.owner);
    var u := SendRequest(w.(attested := w.attested + {id}), r);
    assert Run(w, [Attest(id), OperatorRelease(owned, receipt)]) == u;
    assert [Deliver(r)][1..] == [];
    assert Run(u, [Deliver(r)]) == Run(Step(u, Deliver(r)), []);
    assert Step(u, Deliver(r)) == u.(owner := u.owner + [OperatorPut(owned, receipt)]);
  }

  /** Over every run, an operator's record was written for an owner that has stopped and has nothing in
      flight, and stays so in every continuation. */
  lemma OperatorRecordIsAttested(actions: seq<Action>, i: int, more: seq<Action>, r: Request)
    requires 0 <= i < |Run(EmptyBucket, actions).owner| && Run(EmptyBucket, actions).owner[i].writer == Operator
    ensures var w := Run(EmptyBucket, actions);
            var id := w.owner[i].content.owner;
            && Quiescent(w, id) && w.owner[i].content.state == Released && w.owner[i].content.recovery.Some?
            && (r.From() == Session(id) ==> r !in Run(w, more).net)
  {
    RunKeeps(actions);
    var w := Run(EmptyBucket, actions);
    var id := w.owner[i].content.owner;
    assert RequestOk(w, OwnerRequest(w.owner[i])) && Quiescent(w, id);
    if r.From() == Session(id) { EndedSendsNothing(w, more, id, w.sessions[id], r); }
  }

  // ------------------------------------------------- recovery

  /** Every request in flight may be lost. */
  lemma {:induction false} NetworkDrains(w: World) returns (more: seq<Action>)
    ensures Run(w, more) == w.(net := {})
    decreases |w.net|
  {
    if w.net == {} {
      return [];
    }
    var r :| r in w.net;
    var v := Step(w, Lose(r));
    assert v == w.(net := w.net - {r});
    var rest := NetworkDrains(v);
    more := [Lose(r)] + rest;
    assert more[1..] == rest;
  }

  lemma {:induction false} IdsAreBounded(ids: set<Id>) returns (bound: Id)
    ensures forall id :: id in ids ==> id < bound
    decreases |ids|
  {
    if ids == {} {
      return 0;
    }
    var x :| x in ids;
    var rest := IdsAreBounded(ids - {x});
    bound := if x < rest then rest else x + 1;
    forall id | id in ids ensures id < bound { assert id == x || id in ids - {x}; }
  }

  lemma StoppingEnds(w: World, id: Id)
    requires Inv(w) && id in w.sessions && w.net == {}
    ensures var v := Step(w, Stop(id));
            Inv(v) && v.owner == w.owner && v.net == {} && Quiescent(v, id)
  {
    StepKeeps(w, Stop(id));
    SessionsDoNotWrite(w, Stop(id));
  }

  /** A bucket whose record is Owned can be released by an operator, once its owner is stopped and its
      requests are gone. */
  lemma CanBeFreed(w: World, receipt: Receipt) returns (more: seq<Action>)
    requires Inv(w) && Stored(w.owner).Some? && Stored(w.owner).value.state == Owned
    ensures var was, now := Stored(w.owner).value, Stored(Run(w, more).owner);
            now == Some(was.(state := Released, recovery := Some(receipt)))
  {
    var owned := Stored(w.owner).value;
    var lost := NetworkDrains(w);
    var w1 := w.(net := {});
    RunKeepsInv(w, lost);
    OwnerIsASession(w1);
    StoppingEnds(w1, owned.owner);
    var w2 := Step(w1, Stop(owned.owner));
    OperatorReleaseSucceeds(w2, owned, receipt);
    var ask, land := [Attest(owned.owner), OperatorRelease(owned, receipt)], [Deliver(OwnerRequest(OperatorPut(owned, receipt)))];
    more := lost + [Stop(owned.owner)] + ask + land;
    RunOneMore(w, lost, Stop(owned.owner));
    RunSplits(w, lost + [Stop(owned.owner)], ask);
    RunSplits(w, lost + [Stop(owned.owner)] + ask, land);
  }

  lemma OwnerIsASession(w: World)
    requires Inv(w) && Stored(w.owner).Some? && Stored(w.owner).value.state == Owned
    ensures Stored(w.owner).value.owner in w.sessions
  {
    var p := w.owner[|w.owner| - 1];
    assert OwnerShape(p) && RequestOk(w, OwnerRequest(p));
  }

  lemma CanBeAcquired(w: World, scope: Scope) returns (more: seq<Action>, id: Id)
    requires Inv(w) && Free(w)
    ensures InPhase(Run(w, more), id, Holding(OwnerRecord(NextGeneration(w), id, Owned, scope, None), false, Idle))
  {
    id := IdsAreBounded(w.sessions.Keys);
    var v := Step(w, Begin(id, scope));
    assert v == Move(w, id, Reading(scope));
    var put := AcquirePut(id, scope, Stored(v.owner));
    AcquireSucceeds(v, id, scope, [], true);
    var start, send := [Begin(id, scope)], [ReadOwner(id), SendAcquire(id)];
    var finish := AcquireReads(id, [], true) + [Deliver(OwnerRequest(put)), ConfirmAcquire(id, true, true)];
    more := start + send + finish;
    RunOneMore(w, [], Begin(id, scope));
    assert [] + start == start;
    RunSplits(w, start, send);
    RunSplits(w, start + send, finish);
  }

  /** From every reachable state there is a continuation in which a new session owns the bucket, as long
      as there is a generation left: no crash, lost response or latched guard strands it for good. */
  lemma AlwaysRecoverable(actions: seq<Action>, scope: Scope, receipt: Receipt) returns (more: seq<Action>, id: Id)
    requires var w := Run(EmptyBucket, actions); Stored(w.owner).Some? ==> Stored(w.owner).value.generation < MAX_U64
    ensures var w := Run(EmptyBucket, actions);
            InPhase(Run(w, more), id, Holding(OwnerRecord(NextGeneration(w), id, Owned, scope, None), false, Idle))
  {
    RunKeeps(actions);
    var w := Run(EmptyBucket, actions);
    if Free(w) {
      more, id := CanBeAcquired(w, scope);
    } else {
      var freed := CanBeFreed(w, receipt);
      var v := Run(w, freed);
      RunKeepsInv(w, freed);
      var rest;
      rest, id := CanBeAcquired(v, scope);
      more := freed + rest;
      RunSplits(w, freed, rest);
    }
  }
}
