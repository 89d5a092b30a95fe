/** Each step of the ownership protocol keeps the invariant. */
module OwnershipSteps {
  import opened Wrappers
  import opened Shared
  import opened ConditionalStore
  import opened OwnershipProtocol
  import opened OwnershipInvariant

  // ------------------------------------------------- frames

  /** Nothing that concerns session `id` changed, except that requests may have been lost. */
  ghost predicate Untouched(w: World, v: World, id: Id) {
    && v.owner == w.owner && v.slots == w.slots && v.attested == w.attested && v.oks == w.oks
    && (forall r :: r in v.net && r.From() == Session(id) ==> r in w.net)
    && (forall r: Request :: r.From() == Session(id) ==> (r in v.sent <==> r in w.sent))
  }

  lemma UntouchedPhase(w: World, v: World, id: Id, p: Phase)
    requires Untouched(w, v, id) && PhaseOk(w, id, p)
    ensures PhaseOk(v, id, p)
  {
  }

  lemma SameStore(w: World, v: World)
    requires Histories(w) && v.owner == w.owner && v.slots == w.slots
    ensures Histories(v) && forall k :: Slot(v, k) == Slot(w, k)
  {
    forall k ensures SlotHistory(Slot(v, k)) && Slot(v, k) == Slot(w, k) { assert SlotHistory(Slot(w, k)); }
  }

  /** Nothing was stored or sent; requests may have been lost. */
  ghost predicate Quieter(w: World, v: World) {
    && v.owner == w.owner && v.slots == w.slots && v.sent == w.sent && v.net <= w.net
    && w.sessions.Keys <= v.sessions.Keys && w.attested <= v.attested
  }

  lemma QuieterRequests(w: World, v: World)
    requires Requests(w) && Quieter(w, v)
    ensures Requests(v)
  {
    assert forall k :: Slot(v, k) == Slot(w, k);
    forall r | r in v.sent ensures RequestOk(v, r) { assert RequestOk(w, r); }
  }

  lemma QuieterFenced(w: World, v: World)
    requires Fenced(w) && Quieter(w, v)
    ensures Fenced(v)
  {
    assert forall r :: Dead(w, r) ==> Dead(v, r);
  }

  /** Everything in the invariant but the sessions and the attestations. */
  lemma QuieterStore(w: World, v: World)
    requires Inv(w) && Quieter(w, v)
    ensures Histories(v) && Requests(v) && Unique(v) && Fenced(v)
    ensures v.oks == w.oks ==> Acknowledged(v)
  {
    SameStore(w, v);
    QuieterRequests(w, v);
    QuieterFenced(w, v);
  }

  lemma AttestedStay(w: World, v: World)
    requires Attested(w) && v.attested == w.attested
    requires forall id :: id in w.attested && id in w.sessions && w.sessions[id].Ended? ==> id in v.sessions && v.sessions[id].Ended?
    requires forall r: Request :: r in v.net && r.From().Session? && r.From().id in w.attested ==> r in w.net
    ensures Attested(v)
  {
    forall id | id in v.attested ensures Quiescent(v, id) { assert Quiescent(w, id); }
  }

  lemma MovePhases(w: World, id: Id, p: Phase)
    requires Phases(w) && PhaseOk(w, id, p)
    ensures Phases(Move(w, id, p))
  {
    var v := Move(w, id, p);
    forall t | t in v.sessions ensures PhaseOk(v, t, v.sessions[t]) {
      UntouchedPhase(w, v, t, v.sessions[t]);
    }
  }

  /** A session that only changes its own phase keeps the invariant if its new phase is right. */
  lemma MoveKeeps(w: World, id: Id, p: Phase)
    requires Inv(w) && PhaseOk(w, id, p)
    requires id in w.attested ==> p.Ended?
    ensures Inv(Move(w, id, p))
  {
    var v := Move(w, id, p);
    QuieterStore(w, v);
    AttestedStay(w, v);
    MovePhases(w, id, p);
  }

  // ------------------------------------------------- the store and the network

  lemma LosePhases(w: World, v: World, lost: set<Request>)
    requires Phases(w) && v == w.(net := w.net - lost)
    ensures Phases(v)
  {
    forall t | t in v.sessions ensures PhaseOk(v, t, v.sessions[t]) {
      UntouchedPhase(w, v, t, v.sessions[t]);
    }
  }

  lemma LoseKeeps(w: World, lost: set<Request>)
    requires Inv(w)
    ensures Inv(w.(net := w.net - lost))
  {
    var v := w.(net := w.net - lost);
    QuieterStore(w, v);
    AttestedStay(w, v);
    LosePhases(w, v, lost);
  }

  lemma AttestPhases(w: World, v: World, id: Id)
    requires Phases(w) && Quiescent(w, id) && v == w.(attested := w.attested + {id})
    ensures Phases(v)
  {
    forall t | t in v.sessions ensures PhaseOk(v, t, v.sessions[t]) { assert PhaseOk(w, t, w.sessions[t]); }
  }

  lemma AttestKeeps(w: World, id: Id)
    requires Inv(w) && Quiescent(w, id)
    ensures Inv(w.(attested := w.attested + {id}))
  {
    var v := w.(attested := w.attested + {id});
    QuieterStore(w, v);
    AttestPhases(w, v, id);
    forall t | t in v.attested ensures Quiescent(v, t) { assert Quiescent(w, t); }
  }

  /** Only a release of the stored owner can replace an Owned record. */
  lemma OwnedIsReplacedByRelease(w: World, p: OwnerPut)
    requires Inv(w) && OwnerRequest(p) in w.net && Accepts(w.owner, p.condition)
    requires Stored(w.owner).Some? && Stored(w.owner).value.state == Owned
    ensures p.content.state == Released && p.content.owner == Stored(w.owner).value.owner
    ensures p.content.(state := Owned, recovery := None) == Stored(w.owner).value
    ensures p.writer.Session? ==> p.writer.id == p.content.owner && p.content.recovery == None
  {
    assert RequestOk(w, OwnerRequest(p));
  }

  /** No request in flight can replace the record of a live guard. */
  lemma LiveGuardStays(w: World, p: OwnerPut, id: Id)
    requires Inv(w) && OwnerRequest(p) in w.net && id in w.sessions && w.sessions[id].Holding?
    ensures !Accepts(w.owner, p.condition)
  {
    assert PhaseOk(w, id, w.sessions[id]);
    assert RequestOk(w, OwnerRequest(p)) && OwnerRequest(p).From() == p.writer;
    if Accepts(w.owner, p.condition) { OwnedIsReplacedByRelease(w, p); }
  }

  lemma DeliverOwnerPhase(w: World, p: OwnerPut, id: Id)
    requires Inv(w) && OwnerRequest(p) in w.net && Accepts(w.owner, p.condition) && id in w.sessions
    ensures PhaseOk(w.(owner := w.owner + [p]), id, w.sessions[id])
  {
    var ph := w.sessions[id];
    assert PhaseOk(w, id, ph);
    match ph
    case Holding(_, _, _) => LiveGuardStays(w, p, id);
    case Qualified(_, seen) => if seen.Some? { HeldStays(w.owner, p, seen.value); }
    case Releasing(owned, _, _) => HeldStays(w.owner, p, owned);
    case Ended(released) => if released.Some? { HeldStays(w.owner, p, released.value); }
    case _ =>
  }

  lemma DeliverOwnerHistory(h: seq<OwnerPut>, p: OwnerPut)
    requires OwnerHistory(h) && OwnerShape(p) && Accepts(h, p.condition)
    ensures OwnerHistory(h + [p])
  {
    var g := h + [p];
    forall i | 0 <= i < |g| ensures g[i].condition == Before(g, i) && OwnerShape(g[i]) {
      if i < |h| { assert h[i].condition == Before(h, i); }
    }
  }

  lemma DeliverOwnerFenced(w: World, p: OwnerPut, r: Request)
    requires Inv(w) && OwnerRequest(p) in w.net && Accepts(w.owner, p.condition)
    requires r in w.net && r.SlotRequest?
    ensures Dead(w, r)
  {
    assert RequestOk(w, OwnerRequest(p));
    assert p.writer == Operator ==> Quiescent(w, p.content.owner);
    if !Dead(w, r) { OwnedIsReplacedByRelease(w, p); }
  }

  lemma DeliverOwnerRequests(w: World, v: World, p: OwnerPut)
    requires Requests(w) && OwnerRequest(p) in w.sent && v == w.(owner := w.owner + [p])
    ensures Requests(v)
  {
    assert forall k :: Slot(v, k) == Slot(w, k);
    forall r | r in v.sent ensures RequestOk(v, r) {
      assert RequestOk(w, r);
      if r.OwnerRequest? && r.put.condition.IfMatch? { HeldStays(w.owner, p, r.put.condition.version); }
    }
  }

  lemma DeliverOwnerKeeps(w: World, p: OwnerPut)
    requires Inv(w) && OwnerRequest(p) in w.net && Accepts(w.owner, p.condition)
    ensures Inv(w.(owner := w.owner + [p]))
  {
    var v := w.(owner := w.owner + [p]);
    DeliverOwnerRequests(w, v, p);
    assert Histories(v) by {
      assert RequestOk(w, OwnerRequest(p));
      DeliverOwnerHistory(w.owner, p);
      forall k ensures SlotHistory(Slot(v, k)) { assert SlotHistory(Slot(w, k)); }
    }
    assert Fenced(v) by {
      forall r | r in v.net && r.SlotRequest? ensures Dead(v, r) { DeliverOwnerFenced(w, p, r); }
    }
    assert Acknowledged(v) by { assert forall k :: Slot(v, k) == Slot(w, k); }
    AttestedStay(w, v);
    forall id | id in v.sessions ensures PhaseOk(v, id, v.sessions[id]) { DeliverOwnerPhase(w, p, id); }
  }

  lemma DeliverSlotHistory(w: World, k: SlotKey, p: SlotPut)
    requires Inv(w) && SlotRequest(k, p) in w.net && Accepts(Slot(w, k), p.condition)
    ensures SlotHistory(Slot(w, k) + [p])
  {
    var h := Slot(w, k);
    var g := h + [p];
    assert SlotHistory(h) && RequestOk(w, SlotRequest(k, p));
    forall i | 0 <= i < |g| ensures g[i].condition == Before(g, i) && SlotShape(g[i]) {
      if i < |h| { assert h[i].condition == Before(h, i); }
    }
    forall i, j | 0 <= i < |g| && 0 <= j < |g| && SameBirth(g[i], g[j]) ensures g[i] == g[j] {
      assert SlotRequest(k, g[i]) in w.sent && SlotRequest(k, g[j]) in w.sent;
      assert SameSlotBirth(SlotRequest(k, g[i]), SlotRequest(k, g[j]));
    }
  }

  /** Whoever changes a slot is the current owner, and it is the call that owner is running. */
  lemma DelivererIsOwner(w: World, k: SlotKey, p: SlotPut, id: Id)
    requires Inv(w) && SlotRequest(k, p) in w.net && Accepts(Slot(w, k), p.condition)
    requires id in w.sessions && w.sessions[id].Holding?
    requires !w.sessions[id].uncertain || !w.sessions[id].control.Idle?
    ensures w.sessions[id].control.Sent? && w.sessions[id].control.key == k && w.sessions[id].control.put == p
  {
    var r := SlotRequest(k, p);
    assert SlotHistory(Slot(w, k)) && RequestOk(w, r) && PhaseOk(w, id, w.sessions[id]);
    SlotNeverRepeats(Slot(w, k));
    if Dead(w, r) { SpentIsRefused(Slot(w, k), p.condition); }
    assert r.From() == Session(id) && r in Open(w.sessions[id].control);
  }

  ghost predicate Grows(w: World, v: World, k: SlotKey, p: SlotPut) {
    Slot(v, k) == Slot(w, k) + [p] && forall j :: j != k ==> Slot(v, j) == Slot(w, j)
  }

  lemma GrowthKeepsDead(w: World, v: World, k: SlotKey, p: SlotPut)
    requires Grows(w, v, k, p)
    ensures forall j, c :: Spent(Slot(w, j), c) ==> Spent(Slot(v, j), c)
    ensures forall j, c :: Held(Slot(w, j), c) ==> Held(Slot(v, j), c)
    ensures forall r :: Dead(w, r) ==> Dead(v, r)
  {
    forall j, c | Spent(Slot(w, j), c) ensures Spent(Slot(v, j), c) {
      if j == k { SpentStays(Slot(w, k), p, c); }
    }
    forall j, c | Held(Slot(w, j), c) ensures Held(Slot(v, j), c) {
      if j == k { HeldStays(Slot(w, k), p, c); }
    }
  }

  lemma DeliverSlotPhase(w: World, v: World, k: SlotKey, p: SlotPut, id: Id)
    requires Inv(w) && SlotRequest(k, p) in w.net && Accepts(Slot(w, k), p.condition) && id in w.sessions
    requires v == w.(slots := w.slots[k := Slot(w, k) + [p]])
    ensures PhaseOk(v, id, w.sessions[id])
  {
    var ph := w.sessions[id];
    assert PhaseOk(w, id, ph);
    assert Grows(w, v, k, p);
    GrowthKeepsDead(w, v, k, p);
    if ph.Holding? && !ph.control.Idle? && ph.control.key == k { DelivererIsOwner(w, k, p, id); }
  }

  lemma DeliverSlotRequests(w: World, v: World, k: SlotKey, p: SlotPut)
    requires Inv(w) && SlotRequest(k, p) in w.net && Accepts(Slot(w, k), p.condition)
    requires v == w.(slots := w.slots[k := Slot(w, k) + [p]])
    ensures Requests(v)
  {
    assert Grows(w, v, k, p);
    GrowthKeepsDead(w, v, k, p);
    forall r | r in v.sent ensures RequestOk(v, r) { assert RequestOk(w, r); }
    forall j, i | 0 <= i < |Slot(v, j)| ensures SlotRequest(j, Slot(v, j)[i]) in v.sent {
      if j == k && i < |Slot(w, k)| { assert Slot(v, k)[i] == Slot(w, k)[i]; }
    }
  }

  lemma DeliverSlotKeeps(w: World, k: SlotKey, p: SlotPut)
    requires Inv(w) && SlotRequest(k, p) in w.net && Accepts(Slot(w, k), p.condition)
    ensures Inv(w.(slots := w.slots[k := Slot(w, k) + [p]]))
  {
    var v := w.(slots := w.slots[k := Slot(w, k) + [p]]);
    DeliverSlotRequests(w, v, k, p);
    assert Grows(w, v, k, p);
    assert Histories(v) by {
      DeliverSlotHistory(w, k, p);
      forall j ensures SlotHistory(Slot(v, j)) { assert SlotHistory(Slot(w, j)); }
    }
    assert Fenced(v) && Acknowledged(v) by { GrowthKeepsDead(w, v, k, p); }
    AttestedStay(w, v);
    forall id | id in v.sessions ensures PhaseOk(v, id, v.sessions[id]) { DeliverSlotPhase(w, v, k, p, id); }
  }

  // ------------------------------------------------- sending

  /** `v` is `w` after `r` was sent; phases may have moved. */
  ghost predicate SentIn(w: World, v: World, r: Request) {
    && v.owner == w.owner && v.slots == w.slots && v.attested == w.attested && v.oks == w.oks
    && v.net == w.net + {r} && v.sent == w.sent + {r} && w.sessions.Keys <= v.sessions.Keys
  }

  lemma SendKeepsQuiet(w: World, v: World, r: Request, id: Id, open: set<Request>)
    requires SentIn(w, v, r) && Quiet(w, id, open) && (r.From() != Session(id) || r.OwnerRequest?)
    ensures Quiet(v, id, open)
  {
  }

  lemma SendKeepsRequest(w: World, v: World, r: Request, q: Request)
    requires SentIn(w, v, r) && RequestOk(w, q)
    requires r.SlotRequest? && q.OwnerRequest? && q.put.content.state == Released ==> q.From() != r.From()
    ensures RequestOk(v, q)
  {
    if q.OwnerRequest? && q.put.content.state == Released && q.put.writer.Session? {
      SendKeepsQuiet(w, v, r, q.put.writer.id, {});
    }
  }

  lemma SendKeepsRequests(w: World, v: World, r: Request)
    requires SentIn(w, v, r) && Requests(w) && RequestOk(v, r)
    requires r.SlotRequest? ==> forall q :: q in w.sent && q.OwnerRequest? && q.put.content.state == Released ==> q.From() != r.From()
    ensures Requests(v)
  {
    assert forall k :: Slot(v, k) == Slot(w, k);
    forall q | q in v.sent ensures RequestOk(v, q) {
      if q != r { SendKeepsRequest(w, v, r, q); }
    }
  }

  lemma SendKeepsUnique(w: World, v: World, r: Request)
    requires Unique(w) && SentIn(w, v, r)
    requires forall q :: q in w.sent && (SameAcquisition(q, r) || SameSlotBirth(q, r)) ==> q == r
    ensures Unique(v)
  {
    forall q, s | q in v.sent && s in v.sent && SameAcquisition(q, s) ensures q == s {
      assert SameAcquisition(s, q);
    }
    forall q, s | q in v.sent && s in v.sent && SameSlotBirth(q, s) ensures q == s {
      assert SameSlotBirth(s, q);
    }
  }

  lemma SendKeepsFenced(w: World, v: World, r: Request)
    requires Fenced(w) && SentIn(w, v, r)
    requires r.SlotRequest? ==> r.From().Session? && OwnedBy(w, r.From().id)
    ensures Fenced(v)
  {
    assert forall q :: Dead(w, q) ==> Dead(v, q);
  }

  /** Sending a request keeps the invariant when the request and the sender's new phase are right. */
  lemma SendKeeps(w: World, r: Request, id: Id, p: Phase)
    requires Inv(w) && id in w.sessions && !w.sessions[id].Ended? && r.From() == Session(id)
    requires var v := Move(SendRequest(w, r), id, p); RequestOk(v, r) && PhaseOk(v, id, p)
    requires forall q :: q in w.sent && (SameAcquisition(q, r) || SameSlotBirth(q, r)) ==> q == r
    requires r.SlotRequest? ==> w.sessions[id].Holding?
    ensures Inv(Move(SendRequest(w, r), id, p))
  {
    var v := Move(SendRequest(w, r), id, p);
    assert PhaseOk(w, id, w.sessions[id]);
    SameStore(w, v);
    SendKeepsUnique(w, v, r);
    SendKeepsRequests(w, v, r);
    assert Fenced(v) by { SendKeepsFenced(w, v, r); }
    AttestedStay(w, v);
    forall t | t in v.sessions ensures PhaseOk(v, t, v.sessions[t]) {
      if t != id { UntouchedPhase(w, v, t, v.sessions[t]); }
    }
  }

  lemma SendAcquireKeeps(w: World, id: Id)
    requires Inv(w) && id in w.sessions && w.sessions[id].Qualified?
    ensures Inv(Step(w, SendAcquire(id)))
  {
    var p := w.sessions[id];
    var put := AcquirePut(id, p.scope, p.seen);
    var v := Move(SendRequest(w, OwnerRequest(put)), id, Acquiring(put, READBACKS));
    assert PhaseOk(w, id, p) && PhaseOk(v, id, v.sessions[id]);
    forall q | q in w.sent ensures !SameAcquisition(q, OwnerRequest(put)) { assert RequestOk(w, q); }
    SendKeeps(w, OwnerRequest(put), id, v.sessions[id]);
  }

  lemma SlotRequestOk(w: World, id: Id, p: Phase, incarnation: Id)
    requires PhaseOk(w, id, p) && p.Holding? && p.control.Prepared?
    ensures var v := StepSendSlot(w, id, p, incarnation);
            RequestOk(v, SlotRequest(p.control.key, v.sessions[id].control.put))
  {
    var h := Slot(w, p.control.key);
    if p.control.condition.IfMatch? { assert h[|h| - 1].content == p.control.condition.version; }
  }

  lemma SendSlotKeeps(w: World, id: Id, incarnation: Id)
    requires Inv(w) && id in w.sessions && w.sessions[id].Holding? && w.sessions[id].control.Prepared?
    requires Fresh(w, incarnation)
    ensures Inv(Step(w, SendSlot(id, incarnation)))
  {
    var p := w.sessions[id];
    var v := StepSendSlot(w, id, p, incarnation);
    var r := SlotRequest(p.control.key, v.sessions[id].control.put);
    assert PhaseOk(w, id, p);
    SameStore(w, v);
    SlotRequestOk(w, id, p, incarnation);
    SendKeeps(w, r, id, v.sessions[id]);
  }

  lemma SendReleaseKeeps(w: World, id: Id)
    requires Inv(w) && id in w.sessions && w.sessions[id].Releasing?
    ensures Inv(Move(SendRequest(w, OwnerRequest(ReleasePut(w.sessions[id].owned))), id,
                     w.sessions[id].(confirming := Some(READBACKS))))
  {
    var p := w.sessions[id];
    var r := OwnerRequest(ReleasePut(p.owned));
    var v := Move(SendRequest(w, r), id, p.(confirming := Some(READBACKS)));
    assert PhaseOk(w, id, p);
    SameStore(w, v);
    SendKeeps(w, r, id, v.sessions[id]);
  }

  lemma OperatorRequestOk(w: World, expected: OwnerRecord, receipt: Receipt)
    requires OwnerHistory(w.owner) && expected.state == Owned && expected.owner in w.attested && Held(w.owner, expected)
    ensures var r := OwnerRequest(OperatorPut(expected, receipt)); RequestOk(SendRequest(w, r), r)
  {
    var i :| 0 <= i < |w.owner| && w.owner[i].content == expected;
    assert OwnerShape(w.owner[i]);
  }

  lemma OperatorKeeps(w: World, expected: OwnerRecord, receipt: Receipt)
    requires Inv(w) && expected.state == Owned && expected.owner in w.attested && Held(w.owner, expected)
    ensures Inv(SendRequest(w, OwnerRequest(OperatorPut(expected, receipt))))
  {
    var r := OwnerRequest(OperatorPut(expected, receipt));
    var v := SendRequest(w, r);
    SameStore(w, v);
    OperatorRequestOk(w, expected, receipt);
    SendKeepsUnique(w, v, r);
    SendKeepsRequests(w, v, r);
    SendKeepsFenced(w, v, r);
    AttestedStay(w, v);
    forall t | t in v.sessions ensures PhaseOk(v, t, v.sessions[t]) {
      UntouchedPhase(w, v, t, v.sessions[t]);
    }
  }

  // ------------------------------------------------- phases

  lemma StoredIsHeld<W, T>(h: seq<Put<W, T>>)
    requires h != []
    ensures Held(h, Stored(h).value)
  {
    assert h[|h| - 1].content == Stored(h).value;
  }

  lemma AcquirePhases(w: World, a: Action, id: Id)
    requires Inv(w) && id in w.sessions
    requires a == ReadOwner(id) || a == SendAcquire(id) || (a.ConfirmAcquire? && a.id == id) || a == Stop(id)
    ensures Inv(Step(w, a))
  {
    var p := w.sessions[id];
    assert PhaseOk(w, id, p) && PhaseOk(w, id, Gone);
    if a.SendAcquire? {
      if p.Qualified? { SendAcquireKeeps(w, id); }
    } else if Step(w, a) != w {
      if w.owner != [] { StoredIsHeld(w.owner); }
      if a.ConfirmAcquire? { assert RequestOk(w, OwnerRequest(p.put)); }
      MoveKeeps(w, id, Step(w, a).sessions[id]);
    }
  }

  /** A readback that sees the proposed record proves that this very PUT was applied. */
  lemma ExactIsApplied(w: World, id: Id)
    requires Inv(w) && id in w.sessions && w.sessions[id].Holding? && w.sessions[id].control.Sent?
    requires Stored(Slot(w, w.sessions[id].control.key)) == Some(w.sessions[id].control.put.content)
    ensures Applied(Slot(w, w.sessions[id].control.key), w.sessions[id].control.put)
    ensures Dead(w, SlotRequest(w.sessions[id].control.key, w.sessions[id].control.put))
  {
    var c := w.sessions[id].control;
    assert PhaseOk(w, id, w.sessions[id]) && RequestOk(w, SlotRequest(c.key, c.put));
    assert SlotHistory(Slot(w, c.key));
    AppliedIsSpent(Slot(w, c.key), |Slot(w, c.key)| - 1);
  }

  lemma ConfirmSlotKeeps(w: World, a: Action)
    requires Inv(w) && a.ConfirmSlot? && a.id in w.sessions
    requires w.sessions[a.id].Holding? && w.sessions[a.id].control.Sent?
    ensures Inv(Step(w, a))
  {
    var p := w.sessions[a.id];
    var c := p.control;
    assert PhaseOk(w, a.id, p);
    if Observe(c.put, Report(c.put, a.acknowledged), Look(Slot(w, c.key), a.read)) == Exact {
      ExactIsApplied(w, a.id);
      MoveKeeps(w, a.id, p.(control := Idle));
      OkKeeps(Move(w, a.id, p.(control := Idle)), a.id, c.key, c.put.condition);
    } else {
      MoveKeeps(w, a.id, Step(w, a).sessions[a.id]);
    }
  }

  /** Live guards are unique, so no other running call has this precondition. */
  lemma OkKeeps(w: World, id: Id, k: SlotKey, c: Condition<SlotRecord>)
    requires Inv(w) && id in w.sessions && w.sessions[id].Holding? && w.sessions[id].control == Idle
    requires (k, c) !in w.oks && Spent(Slot(w, k), c)
    ensures Inv(w.(oks := w.oks + [(k, c)]))
  {
    var v := w.(oks := w.oks + [(k, c)]);
    QuieterStore(w, v);
    assert Acknowledged(v) by { assert forall j :: Slot(v, j) == Slot(w, j); }
    AttestedStay(w, v);
    OkPhases(w, v, id, k, c);
  }

  lemma OkPhases(w: World, v: World, id: Id, k: SlotKey, c: Condition<SlotRecord>)
    requires Phases(w) && id in w.sessions && w.sessions[id].Holding? && w.sessions[id].control == Idle
    requires v == w.(oks := w.oks + [(k, c)])
    ensures Phases(v)
  {
    assert PhaseOk(w, id, w.sessions[id]);
    forall t | t in v.sessions ensures PhaseOk(v, t, v.sessions[t]) {
      assert PhaseOk(w, t, w.sessions[t]);
    }
  }

  lemma PrepareSlotKeeps(w: World, id: Id, key: SlotKey, call: SlotCall)
    requires Inv(w) && id in w.sessions
    requires w.sessions[id].Holding? && w.sessions[id].control.Idle? && !w.sessions[id].uncertain
    requires Plan(Stored(Slot(w, key)), call).Some?
    ensures Inv(Step(w, PrepareSlot(id, key, call)))
  {
    var p := w.sessions[id];
    var plan := Plan(Stored(Slot(w, key)), call).value;
    assert PhaseOk(w, id, p) && SlotHistory(Slot(w, key));
    SlotNeverRepeats(Slot(w, key));
    if (key, plan.0) in w.oks { SpentIsRefused(Slot(w, key), plan.0); }
    MoveKeeps(w, id, p.(control := Prepared(key, plan.0, plan.1)));
  }

  lemma RejectedPhase(w: World, id: Id, p: Phase)
    requires PhaseOk(w, id, p) && p.Holding? && p.control.Sent?
    ensures PhaseOk(w.(net := w.net - Open(p.control)), id, p.(control := Idle))
  {
  }

  lemma RejectSlotKeeps(w: World, id: Id)
    requires Inv(w) && id in w.sessions && w.sessions[id].Holding? && w.sessions[id].control.Sent?
    ensures Inv(Step(w, RejectSlot(id)))
  {
    var p := w.sessions[id];
    RejectedPhase(w, id, p);
    LoseKeeps(w, Open(p.control));
    MoveKeeps(w.(net := w.net - Open(p.control)), id, p.(control := Idle));
  }

  lemma HoldingPhases(w: World, a: Action, id: Id)
    requires Inv(w) && id in w.sessions && w.sessions[id].Holding?
    requires (a.PrepareSlot? || a.SendSlot? || a.ConfirmSlot? || a.RejectSlot? || a.CancelSlot?
              || a.MarkUncertain? || a.BeginRelease?) && a.id == id
    ensures Inv(Step(w, a))
  {
    var p := w.sessions[id];
    assert PhaseOk(w, id, p) && PhaseOk(w, id, Gone);
    if a.PrepareSlot? {
      if p.control.Idle? && !p.uncertain && Plan(Stored(Slot(w, a.key)), a.call).Some? {
        PrepareSlotKeeps(w, id, a.key, a.call);
      }
    } else if a.SendSlot? {
      if p.control.Prepared? && Fresh(w, a.incarnation) { SendSlotKeeps(w, id, a.incarnation); }
    } else if a.ConfirmSlot? {
      if p.control.Sent? { ConfirmSlotKeeps(w, a); }
    } else if a.RejectSlot? {
      if p.control.Sent? { RejectSlotKeeps(w, id); }
    } else if a.BeginRelease? {
      if p.control.Idle? {
        StoredIsHeld(w.owner);
        assert OwnerShape(w.owner[|w.owner| - 1]);
        MoveKeeps(w, id, Step(w, a).sessions[id]);
      }
    } else {
      MoveKeeps(w, id, Step(w, a).sessions[id]);
    }
  }

  lemma ReleaseReadKeeps(w: World, id: Id, read: bool)
    requires Inv(w) && id in w.sessions && w.sessions[id].Releasing?
    ensures Inv(Step(w, ReleaseRead(id, read)))
  {
    var p := w.sessions[id];
    assert PhaseOk(w, id, p) && PhaseOk(w, id, Gone);
    if p.confirming.None? && p.rounds > 0 {
      if !read {
        MoveKeeps(w, id, if p.rounds == 1 then Gone else p.(rounds := p.rounds - 1));
      } else if Stored(w.owner) == Some(AsReleased(p.owned)) {
        StoredIsHeld(w.owner);
        MoveKeeps(w, id, Ended(Some(AsReleased(p.owned))));
      } else if Stored(w.owner) == Some(p.owned) {
        SendReleaseKeeps(w, id);
      } else {
        MoveKeeps(w, id, Gone);
      }
    }
  }

  lemma ConfirmReleaseKeeps(w: World, a: Action)
    requires Inv(w) && a.ConfirmRelease? && a.id in w.sessions && w.sessions[a.id].Releasing?
    ensures Inv(Step(w, a))
  {
    var p := w.sessions[a.id];
    assert PhaseOk(w, a.id, p) && PhaseOk(w, a.id, Gone);
    if p.confirming.Some? {
      if w.owner != [] { StoredIsHeld(w.owner); }
      MoveKeeps(w, a.id, StepConfirmRelease(w, a.id, p, a).sessions[a.id]);
    }
  }

  // ------------------------------------------------- every run

  lemma SessionKeeps(w: World, a: Action)
    requires Inv(w) && OfSession(a) && a.id in w.sessions && Step(w, a) != w
    ensures Inv(Step(w, a))
  {
    if a.ReadOwner? || a.SendAcquire? || a.ConfirmAcquire? || a.Stop? {
      AcquirePhases(w, a, a.id);
    } else if a.ReleaseRead? {
      ReleaseReadKeeps(w, a.id, a.read);
    } else if a.ConfirmRelease? {
      ConfirmReleaseKeeps(w, a);
    } else {
      HoldingPhases(w, a, a.id);
    }
  }

  lemma BeginKeeps(w: World, id: Id, scope: Scope)
    requires Inv(w) && id !in w.sessions
    ensures Inv(Move(w, id, Reading(scope)))
  {
    forall r | r in w.sent ensures r.From() != Session(id) { assert RequestOk(w, r); }
    assert id in w.attested ==> Quiescent(w, id);
    MoveKeeps(w, id, Reading(scope));
  }

  lemma StepKeeps(w: World, a: Action)
    requires Inv(w)
    ensures Inv(Step(w, a))
  {
    if OfSession(a) {
      if a.id in w.sessions && Step(w, a) != w { SessionKeeps(w, a); }
    } else if a.Begin? {
      if a.id !in w.sessions { BeginKeeps(w, a.id, a.scope); }
    } else if a.Deliver? {
      DeliverKeeps(w, a.request);
    } else if a.Lose? {
      LoseKeeps(w, {a.request});
    } else if a.Attest? {
      if Quiescent(w, a.id) { AttestKeeps(w, a.id); }
    } else if Step(w, a) != w {
      OperatorKeeps(w, a.expected, a.receipt);
    }
  }

  lemma DeliverKeeps(w: World, r: Request)
    requires Inv(w)
    ensures Inv(Step(w, Deliver(r)))
  {
    if r in w.net {
      if r.OwnerRequest? && Accepts(w.owner, r.put.condition) {
        DeliverOwnerKeeps(w, r.put);
      } else if r.SlotRequest? && Accepts(Slot(w, r.key), r.slotPut.condition) {
        DeliverSlotKeeps(w, r.key, r.slotPut);
      }
    }
  }

  lemma {:induction false} RunKeepsInv(w: World, actions: seq<Action>)
    requires Inv(w)
    ensures Inv(Run(w, actions))
    decreases |actions|
  {
    if actions != [] {
      StepKeeps(w, actions[0]);
      RunKeepsInv(Step(w, actions[0]), actions[1..]);
    }
  }

  /** The invariant holds at the end of every run from an empty bucket. */
  lemma RunKeeps(actions: seq<Action>)
    ensures Inv(Run(EmptyBucket, actions))
  {
    RunKeepsInv(EmptyBucket, actions);
  }
}
