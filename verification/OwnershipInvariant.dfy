/** What every step of the ownership protocol keeps. */
module OwnershipInvariant {
  import opened Wrappers
  import opened ConditionalStore
  import opened OwnershipProtocol

  // ------------------------------------------------- histories of one key

  /** An owner PUT takes the next generation from a released record, or releases one owner. */
  ghost predicate OwnerShape(p: OwnerPut) {
    var c := p.content;
    if c.state == Owned then
      && p.writer == Session(c.owner)
      && c.recovery == None
      && (p.condition == IfAbsent ==> c.generation == 1)
      && (p.condition != IfAbsent ==> p.condition.version.state == Released
                                      && c.generation == p.condition.version.generation + 1)
    else
      && p.condition == IfMatch(c.(state := Owned, recovery := None))
      && (if p.writer == Operator then c.recovery.Some? else p.writer == Session(c.owner) && c.recovery == None)
  }

  /** A slot PUT starts a new incarnation in an empty slot, or is the next revision of a live one. */
  ghost predicate SlotShape(p: SlotPut) {
    && p.writer.Session?
    && if Starts(p.condition) then p.content.revision == 0 && p.content.payload.Some?
       else p.content.incarnation == p.condition.version.incarnation
            && p.content.revision == p.condition.version.revision + 1
  }

  ghost predicate OwnerHistory(h: seq<OwnerPut>) {
    Chained(h) && forall i :: 0 <= i < |h| ==> OwnerShape(h[i])
  }

  ghost predicate SlotHistory(h: seq<SlotPut>) {
    && Chained(h)
    && (forall i :: 0 <= i < |h| ==> SlotShape(h[i]))
    && (forall i, j {:trigger SameBirth(h[i], h[j])} ::
          0 <= i < |h| && 0 <= j < |h| && SameBirth(h[i], h[j]) ==> h[i] == h[j])
  }

  ghost predicate SameBirth(p: SlotPut, q: SlotPut) {
    p.content.revision == 0 && q.content.revision == 0 && p.content.incarnation == q.content.incarnation
  }

  /** Owned and Released alternate, and the generation counts the Owned records so far. */
  lemma {:induction false} OwnerAlternates(h: seq<OwnerPut>, i: int)
    requires OwnerHistory(h) && 0 <= i < |h|
    ensures h[i].content.generation == i / 2 + 1
    ensures h[i].content.state == Owned <==> i % 2 == 0
    ensures i % 2 == 1 ==> h[i].content.(state := Owned, recovery := None) == h[i - 1].content
  {
    assert h[i].condition == Before(h, i) && OwnerShape(h[i]);
    if i > 0 { OwnerAlternates(h, i - 1); }
  }

  lemma OwnerNeverRepeats(h: seq<OwnerPut>)
    requires OwnerHistory(h)
    ensures NeverRepeats(h)
  {
    forall i, j | 0 <= i < j < |h| ensures h[i].content != h[j].content {
      OwnerAlternates(h, i);
      OwnerAlternates(h, j);
    }
  }

  lemma SlotStep(h: seq<SlotPut>, j: int)
    requires SlotHistory(h) && 0 <= j < |h| && h[j].content.revision > 0
    ensures j > 0 && h[j].content.incarnation == h[j - 1].content.incarnation
    ensures h[j].content.revision == h[j - 1].content.revision + 1
  {
    assert h[j].condition == Before(h, j) && SlotShape(h[j]);
  }

  lemma SlotBirths(h: seq<SlotPut>, i: int, j: int)
    requires SlotHistory(h) && 0 <= i < j < |h| && SameBirth(h[i], h[j])
    ensures i > 0 && h[i - 1].content == h[j - 1].content
  {
    assert h[i].condition == Before(h, i) && h[j].condition == Before(h, j);
  }

  /** Within one incarnation revisions only grow, and an incarnation starts only once. */
  lemma {:induction false} RevisionsGrow(h: seq<SlotPut>, i: int, j: int)
    requires SlotHistory(h) && 0 <= i < j < |h|
    requires h[i].content.incarnation == h[j].content.incarnation
    ensures h[i].content.revision < h[j].content.revision
    decreases j, i
  {
    if h[j].content.revision > 0 {
      SlotStep(h, j);
      if i < j - 1 { RevisionsGrow(h, i, j - 1); }
    } else if h[i].content.revision > 0 {
      SlotStep(h, i);
      RevisionsGrow(h, i - 1, j);
    } else {
      SlotBirths(h, i, j);
      RevisionsGrow(h, i - 1, j - 1);
    }
  }

  lemma SlotNeverRepeats(h: seq<SlotPut>)
    requires SlotHistory(h)
    ensures NeverRepeats(h)
  {
    forall i, j | 0 <= i < j < |h| ensures h[i].content != h[j].content {
      if h[i].content.incarnation == h[j].content.incarnation { RevisionsGrow(h, i, j); }
    }
  }

  // ------------------------------------------------- the invariant

  /** The request is a control PUT that can never change its slot again. */
  ghost predicate Dead(w: World, r: Request) {
    r.SlotRequest? && Spent(Slot(w, r.key), r.slotPut.condition)
  }

  /** Every control PUT of `id` that is still in flight is dead, except perhaps those in `open`. */
  ghost predicate Quiet(w: World, id: Id, open: set<Request>) {
    forall r :: r in w.net && r.SlotRequest? && r.From() == Session(id) && r !in open ==> Dead(w, r)
  }

  ghost function Open(c: Control): set<Request> {
    if c.Sent? then {SlotRequest(c.key, c.put)} else {}
  }

  /** While a control call runs, its slot still holds what the call read, or what it wrote. */
  ghost predicate ControlOk(w: World, id: Id, c: Control) {
    match c
    case Idle => true
    case Prepared(key, condition, edit) =>
      && (Starts(condition) ==> edit.Write?)
      && Accepts(Slot(w, key), condition)
      && (key, condition) !in w.oks
    case Sent(key, put, _) =>
      && SlotRequest(key, put) in w.sent && put.writer == Session(id)
      && (Accepts(Slot(w, key), put.condition) || Applied(Slot(w, key), put))
      && (key, put.condition) !in w.oks
  }

  /** The last PUT applied at the key is `p` itself. */
  ghost predicate Applied(h: seq<SlotPut>, p: SlotPut) {
    h != [] && h[|h| - 1] == p
  }

  ghost predicate PhaseOk(w: World, id: Id, p: Phase) {
    && (!p.Ended? ==> id !in w.attested)
    && match p
       case Reading(_) => forall r :: r in w.sent ==> r.From() != Session(id)
       case Qualified(_, seen) =>
         && (forall r :: r in w.sent ==> r.From() != Session(id))
         && (seen.Some? ==> seen.value.state == Released && Held(w.owner, seen.value))
       case Acquiring(put, _) =>
         && OwnerRequest(put) in w.sent && put.writer == Session(id) && put.content.state == Owned
         && forall r :: r in w.sent && r.From() == Session(id) ==> r == OwnerRequest(put)
       case Holding(owned, uncertain, control) =>
         && Stored(w.owner) == Some(owned) && owned.owner == id && owned.state == Owned
         && (forall r :: r in w.sent && r.From() == Session(id) && r.OwnerRequest? ==> r.put.content == owned)
         && ControlOk(w, id, control)
         && (!uncertain || !control.Idle? ==> Quiet(w, id, Open(control)))
       case Releasing(owned, _, _) =>
         && Held(w.owner, owned) && owned.owner == id && owned.state == Owned && owned.recovery == None
         && Quiet(w, id, {})
       case Ended(released) =>
         released.Some? ==> Held(w.owner, released.value) && released.value.owner == id
                            && released.value.state == Released
  }

  ghost predicate Histories(w: World) {
    && OwnerHistory(w.owner)
    && forall k {:trigger SlotHistory(Slot(w, k))} :: SlotHistory(Slot(w, k))
  }

  ghost predicate RequestOk(w: World, r: Request) {
    && (r.From().Session? ==> r.From().id in w.sessions)
    && match r
       case OwnerRequest(p) =>
         && OwnerShape(p)
         && (p.condition.IfMatch? ==> Held(w.owner, p.condition.version))
         && (p.content.state == Released && p.writer.Session? ==> Quiet(w, p.writer.id, {}))
         && (p.writer == Operator ==> p.content.owner in w.attested)
       case SlotRequest(k, p) =>
         && SlotShape(p)
         && (p.condition.IfMatch? ==> Held(Slot(w, k), p.condition.version))
  }

  ghost predicate Requests(w: World) {
    && w.net <= w.sent
    && (forall i :: 0 <= i < |w.owner| ==> OwnerRequest(w.owner[i]) in w.sent)
    && (forall k, i :: 0 <= i < |Slot(w, k)| ==> SlotRequest(k, Slot(w, k)[i]) in w.sent)
    && (forall r {:trigger RequestOk(w, r)} :: r in w.sent ==> RequestOk(w, r))
  }

  ghost predicate SameAcquisition(r: Request, q: Request) {
    && r.OwnerRequest? && q.OwnerRequest?
    && r.put.content.state == Owned && q.put.content.state == Owned
    && r.put.content.owner == q.put.content.owner
  }

  ghost predicate SameSlotBirth(r: Request, q: Request) {
    r.SlotRequest? && q.SlotRequest? && SameBirth(r.slotPut, q.slotPut)
  }

  /** One acquisition per session, one birth per incarnation. */
  ghost predicate Unique(w: World) {
    && (forall r, q {:trigger SameAcquisition(r, q)} :: r in w.sent && q in w.sent && SameAcquisition(r, q) ==> r == q)
    && (forall r, q {:trigger SameSlotBirth(r, q)} :: r in w.sent && q in w.sent && SameSlotBirth(r, q) ==> r == q)
  }

  ghost predicate OwnedBy(w: World, id: Id) {
    Stored(w.owner).Some? && Stored(w.owner).value.state == Owned && Stored(w.owner).value.owner == id
  }

  /** A control PUT that can still change its slot belongs to the current owner. */
  ghost predicate Fenced(w: World) {
    forall r :: r in w.net && r.SlotRequest? ==> Dead(w, r) || (r.From().Session? && OwnedBy(w, r.From().id))
  }

  ghost predicate Acknowledged(w: World) {
    && (forall i, j :: 0 <= i < j < |w.oks| ==> w.oks[i] != w.oks[j])
    && (forall i :: 0 <= i < |w.oks| ==> Spent(Slot(w, w.oks[i].0), w.oks[i].1))
  }

  ghost predicate Attested(w: World) {
    forall id {:trigger Quiescent(w, id)} :: id in w.attested ==> Quiescent(w, id)
  }

  ghost predicate Phases(w: World) {
    forall id {:trigger PhaseOk(w, id, w.sessions[id])} :: id in w.sessions ==> PhaseOk(w, id, w.sessions[id])
  }

  ghost predicate Inv(w: World) {
    && Histories(w)
    && Requests(w)
    && Unique(w)
    && Fenced(w)
    && Acknowledged(w)
    && Attested(w)
    && Phases(w)
  }
}
