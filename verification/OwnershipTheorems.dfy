/** What the ownership protocol guarantees over every run from an empty bucket, for any
    number of sessions and operators and any late, lost or repeated execution of a request. */
module OwnershipTheorems {
  import opened Wrappers
  import opened ConditionalStore
  import opened OwnershipProtocol
  import opened OwnershipInvariant
  import opened OwnershipSteps

  // ------------------------------------------------- histories only grow

  lemma SessionsDoNotWrite(w: World, a: Action)
    requires !a.Deliver?
    ensures Step(w, a).owner == w.owner && Step(w, a).slots == w.slots
  {
  }

  lemma StepGrows(w: World, a: Action, k: SlotKey)
    ensures w.owner <= Step(w, a).owner && Slot(w, k) <= Slot(Step(w, a), k)
  {
    if !a.Deliver? { SessionsDoNotWrite(w, a); }
  }

  lemma {:induction false} RunGrows(w: World, actions: seq<Action>, k: SlotKey)
    ensures w.owner <= Run(w, actions).owner && Slot(w, k) <= Slot(Run(w, actions), k)
    decreases |actions|
  {
    if actions != [] {
      StepGrows(w, actions[0], k);
      RunGrows(Step(w, actions[0]), actions[1..], k);
    }
  }

  lemma {:induction false} RunSplits(w: World, a: seq<Action>, b: seq<Action>)
    ensures Run(w, a + b) == Run(Run(w, a), b)
    decreases |a|
  {
    if a == [] {
      assert a + b == b;
    } else {
      assert (a + b)[1..] == a[1..] + b;
      RunSplits(Step(w, a[0]), a[1..], b);
    }
  }

  lemma RunOneMore(w: World, actions: seq<Action>, a: Action)
    ensures Run(w, actions + [a]) == Step(Run(w, actions), a)
  {
    RunSplits(w, actions, [a]);
  }

  lemma PrefixSpent<W, T>(h: seq<Put<W, T>>, g: seq<Put<W, T>>, c: Condition<T>)
    requires h <= g && Spent(h, c)
    ensures Spent(g, c)
  {
    if c.IfMatch? {
      var i :| 0 <= i < |h| - 1 && h[i].content == c.version;
      assert g[i].content == c.version;
    }
  }

  // ------------------------------------------------- who sends what

  /** Whatever a step sends is an operator's, or its own session's, and that session is running. A
      release is sent only while releasing. */
  lemma SenderIsRunning(w: World, a: Action, r: Request)
    requires Inv(w)
    requires (r in Step(w, a).sent && r !in w.sent) || (r in Step(w, a).net && r !in w.net)
    ensures r.From() == Operator || (OfSession(a) && a.id in w.sessions && r.From() == Session(a.id) && !w.sessions[a.id].Ended?)
    ensures r.From() != Operator && r.OwnerRequest? && r.put.content.state == Released ==>
              a.ReleaseRead? && w.sessions[a.id].Releasing? && r.put == ReleasePut(w.sessions[a.id].owned)
  {
    if OfSession(a) && a.id in w.sessions { assert PhaseOk(w, a.id, w.sessions[a.id]); }
  }

  ghost predicate InPhase(w: World, id: Id, p: Phase) {
    id in w.sessions && w.sessions[id] == p
  }

  lemma EndedStays(w: World, a: Action, id: Id, p: Phase)
    requires InPhase(w, id, p) && p.Ended?
    ensures InPhase(Step(w, a), id, p)
  {
  }

  lemma EndedStep(w: World, a: Action, id: Id, p: Phase, r: Request)
    requires Inv(w) && InPhase(w, id, p) && p.Ended?
    ensures r.From() == Session(id) ==> (r in Step(w, a).sent ==> r in w.sent) && (r in Step(w, a).net ==> r in w.net)
  {
    var v := Step(w, a);
    if r.From() == Session(id) && ((r in v.sent && r !in w.sent) || (r in v.net && r !in w.net)) {
      SenderIsRunning(w, a, r);
    }
  }

  /** A session that has ended stays as it is and sends nothing, in every continuation. */
  lemma {:induction false} EndedSendsNothing(w: World, more: seq<Action>, id: Id, p: Phase, r: Request)
    requires Inv(w) && InPhase(w, id, p) && p.Ended? && r.From() == Session(id)
    ensures InPhase(Run(w, more), id, p)
    ensures (r in Run(w, more).sent ==> r in w.sent) && (r in Run(w, more).net ==> r in w.net)
    decreases |more|
  {
    if more != [] {
      EndedStep(w, more[0], id, p, r);
      EndedStays(w, more[0], id, p);
      StepKeeps(w, more[0]);
      EndedSendsNothing(Step(w, more[0]), more[1..], id, p, r);
    }
  }

  // ------------------------------------------------- mutual exclusion

  /** Two live guards are one guard, and the bucket stores exactly its record. */
  lemma MutualExclusion(actions: seq<Action>, s: Id, t: Id)
    requires var w := Run(EmptyBucket, actions);
             s in w.sessions && t in w.sessions && w.sessions[s].Holding? && w.sessions[t].Holding?
    ensures s == t
    ensures var w := Run(EmptyBucket, actions); Stored(w.owner) == Some(w.sessions[s].owned)
    ensures Run(EmptyBucket, actions).sessions[s].owned.owner == s
  {
    RunKeeps(actions);
    var w := Run(EmptyBucket, actions);
    assert PhaseOk(w, s, w.sessions[s]) && PhaseOk(w, t, w.sessions[t]);
  }

  /** The `n`-th action of the run starts a release, with a clear latch and no control call running. */
  ghost predicate BeginsRelease(actions: seq<Action>, n: int, id: Id, owned: OwnerRecord)
    requires 0 <= n < |actions|
  {
    actions[n] == BeginRelease(id) && InPhase(Run(EmptyBucket, actions[..n]), id, Holding(owned, false, Idle))
  }

  ghost predicate Begun(actions: seq<Action>, id: Id, owned: OwnerRecord) {
    exists n :: 0 <= n < |actions| && BeginsRelease(actions, n, id, owned)
  }

  lemma BegunStays(before: seq<Action>, a: Action, id: Id, owned: OwnerRecord)
    requires Begun(before, id, owned)
    ensures Begun(before + [a], id, owned)
  {
    var n :| 0 <= n < |before| && BeginsRelease(before, n, id, owned);
    assert (before + [a])[..n] == before[..n];
    assert BeginsRelease(before + [a], n, id, owned);
  }

  ghost predicate ReleaseShows(w: World, id: Id, owned: OwnerRecord) {
    OwnerRequest(ReleasePut(owned)) in w.sent || IsReleasing(w, id, owned)
  }

  /** A release shows up only after it was sent or begun by its own session. */
  lemma ReleaseShowsAfter(w: World, a: Action, id: Id, owned: OwnerRecord)
    requires Inv(w) && owned.owner == id && ReleaseShows(Step(w, a), id, owned) && !ReleaseShows(w, id, owned)
    ensures a == BeginRelease(id) && InPhase(w, id, Holding(owned, false, Idle))
  {
    var r := OwnerRequest(ReleasePut(owned));
    if r in Step(w, a).sent { SenderIsRunning(w, a, r); } else { BecomesReleasing(w, a, id, owned); }
  }

  ghost predicate IsReleasing(w: World, id: Id, owned: OwnerRecord) {
    id in w.sessions && w.sessions[id].Releasing? && w.sessions[id].owned == owned
  }

  lemma BecomesReleasing(w: World, a: Action, id: Id, owned: OwnerRecord)
    requires IsReleasing(Step(w, a), id, owned) && !IsReleasing(w, id, owned)
    ensures a == BeginRelease(id) && InPhase(w, id, Holding(owned, false, Idle))
  {
  }

  lemma {:induction false} ReleaseWasBegun(actions: seq<Action>, id: Id, owned: OwnerRecord)
    requires owned.owner == id && ReleaseShows(Run(EmptyBucket, actions), id, owned)
    ensures Begun(actions, id, owned)
    decreases |actions|
  {
    if actions != [] {
      var before, a := actions[..|actions| - 1], actions[|actions| - 1];
      assert actions == before + [a];
      RunOneMore(EmptyBucket, before, a);
      RunKeeps(before);
      if ReleaseShows(Run(EmptyBucket, before), id, owned) {
        ReleaseWasBegun(before, id, owned);
        BegunStays(before, a, id, owned);
      } else {
        ReleaseShowsAfter(Run(EmptyBucket, before), a, id, owned);
        assert BeginsRelease(actions, |before|, id, owned);
      }
    }
  }

  /** Once a record is Owned, only its own session's release, begun by that session with all its
      control writes resolved, or an operator release of a quiescent owner can change it. */
  lemma OwnedChangesOnlyByRelease(actions: seq<Action>, a: Action)
    requires var w := Run(EmptyBucket, actions);
             && Stored(w.owner).Some? && Stored(w.owner).value.state == Owned
             && Stored(Step(w, a).owner) != Stored(w.owner)
    ensures var w := Run(EmptyBucket, actions);
            var was, now := Stored(w.owner).value, Stored(Step(w, a).owner);
            && was.owner in w.sessions && (w.sessions[was.owner].Releasing? || w.sessions[was.owner].Ended?)
            && now.Some? && now.value.state == Released
            && now.value.(state := Owned, recovery := None) == was
            && (now.value.recovery == None ==> Begun(actions, was.owner, was) && Quiet(w, was.owner, {}))
            && (now.value.recovery != None ==> was.owner in w.attested && Quiescent(w, was.owner))
  {
    RunKeeps(actions);
    var w := Run(EmptyBucket, actions);
    if !a.Deliver? { SessionsDoNotWrite(w, a); }
    var p := a.request.put;
    assert RequestOk(w, OwnerRequest(p));
    OwnedIsReplacedByRelease(w, p);
    if p.writer == Operator {
      assert Quiescent(w, p.content.owner);
    } else {
      var id := p.writer.id;
      assert PhaseOk(w, id, w.sessions[id]) && OwnerRequest(p).From() == Session(id);
      ReleaseWasBegun(actions, id, Stored(w.owner).value);
    }
  }

  // ------------------------------------------------- no ABA

  ghost function CountOwned(h: seq<OwnerPut>): nat {
    if h == [] then 0
    else CountOwned(h[..|h| - 1]) + if h[|h| - 1].content.state == Owned then 1 else 0
  }

  lemma {:induction false} CountOwnedIsHalf(h: seq<OwnerPut>)
    requires OwnerHistory(h)
    ensures CountOwned(h) == (|h| + 1) / 2
  {
    if h != [] {
      var g := h[..|h| - 1];
      assert OwnerHistory(g) by {
        forall i | 0 <= i < |g| ensures g[i].condition == Before(g, i) {
          assert h[i].condition == Before(h, i);
        }
      }
      CountOwnedIsHalf(g);
      OwnerAlternates(h, |h| - 1);
    }
  }

  /** No owner-record contents ever recur, although versions are derived from contents alone,
      and the stored generation is the number of Owned records ever applied. */
  lemma OwnerRecordsNeverRecur(actions: seq<Action>)
    ensures var w := Run(EmptyBucket, actions);
            && NeverRepeats(w.owner)
            && (w.owner != [] ==> Stored(w.owner).value.generation == CountOwned(w.owner))
  {
    RunKeeps(actions);
    var w := Run(EmptyBucket, actions);
    OwnerNeverRepeats(w.owner);
    CountOwnedIsHalf(w.owner);
    if w.owner != [] { OwnerAlternates(w.owner, |w.owner| - 1); }
  }

  /** Executing a release, resent or delayed, changes nothing unless its own Owned record is stored. */
  lemma LateReleaseIsRefused(actions: seq<Action>, p: OwnerPut)
    requires var w := Run(EmptyBucket, actions);
             && OwnerRequest(p) in w.net && p.content.state == Released
             && Stored(w.owner) != Some(p.content.(state := Owned, recovery := None))
    ensures Step(Run(EmptyBucket, actions), Deliver(OwnerRequest(p))) == Run(EmptyBucket, actions)
  {
    RunKeeps(actions);
    var w := Run(EmptyBucket, actions);
    assert RequestOk(w, OwnerRequest(p));
  }

  lemma AfterOwned(h: seq<OwnerPut>, i: int, j: int)
    requires OwnerHistory(h) && 0 <= i <= j < |h| && h[i].content.state == Owned
    ensures h[j].content.(state := Owned, recovery := None) == h[i].content
            || h[j].content.generation > h[i].content.generation
  {
    OwnerAlternates(h, i);
    OwnerAlternates(h, j);
    assert OwnerShape(h[i]);
  }

  lemma LaterHistory(h: seq<OwnerPut>, g: seq<OwnerPut>)
    requires OwnerHistory(g) && h <= g && h != [] && Stored(h).value.state == Owned
    ensures var now := Stored(g).value;
            now.(state := Owned, recovery := None) == Stored(h).value || now.generation > Stored(h).value.generation
  {
    AfterOwned(g, |h| - 1, |g| - 1);
  }

  lemma RunHistory(w: World, more: seq<Action>)
    requires Inv(w)
    ensures OwnerHistory(Run(w, more).owner) && w.owner <= Run(w, more).owner
  {
    RunKeepsInv(w, more);
    RunGrows(w, more, 0);
  }

  /** From an Owned record, every run stores that record, a release of it, or a later generation. */
  lemma OwnedThenReleasedThenLater(actions: seq<Action>, more: seq<Action>)
    requires var w := Run(EmptyBucket, actions); w.owner != [] && Stored(w.owner).value.state == Owned
    ensures var was := Stored(Run(EmptyBucket, actions).owner).value;
            var now := Stored(Run(Run(EmptyBucket, actions), more).owner);
            now.Some? && (now.value.(state := Owned, recovery := None) == was || now.value.generation > was.generation)
  {
    RunKeeps(actions);
    var w := Run(EmptyBucket, actions);
    RunHistory(w, more);
    LaterHistory(w.owner, Run(w, more).owner);
  }

  // ------------------------------------------------- quiescence of control writes

  lemma SpentForever(w: World, more: seq<Action>, k: SlotKey, c: Condition<SlotRecord>)
    requires Inv(w) && Spent(Slot(w, k), c)
    ensures Spent(Slot(Run(w, more), k), c) && !Accepts(Slot(Run(w, more), k), c)
  {
    var h := Slot(Run(w, more), k);
    RunGrows(w, more, k);
    RunKeepsInv(w, more);
    PrefixSpent(Slot(w, k), h, c);
    assert SlotHistory(h);
    SlotNeverRepeats(h);
    SpentIsRefused(h, c);
  }

  lemma DeadForever(w: World, more: seq<Action>, r: Request)
    requires Inv(w) && Dead(w, r)
    ensures Dead(Run(w, more), r)
    ensures Step(Run(w, more), Deliver(r)) == Run(w, more)
  {
    SpentForever(w, more, r.key, r.slotPut.condition);
  }

  /** Whenever the stored record is Released, or there is none, no control PUT already sent by
      anyone can change a slot, now or at any later point of any run. */
  lemma ReleasedIsQuiescent(actions: seq<Action>, more: seq<Action>, r: Request)
    requires var w := Run(EmptyBucket, actions);
             && (w.owner == [] || Stored(w.owner).value.state == Released)
             && r in w.net && r.SlotRequest?
    ensures var v := Run(Run(EmptyBucket, actions), more); Step(v, Deliver(r)) == v
  {
    RunKeeps(actions);
    var w := Run(EmptyBucket, actions);
    assert Dead(w, r);
    DeadForever(w, more, r);
  }

  /** A control PUT that changes a slot belongs to the session named by the stored Owned record;
      while some guard is live and its latch is clear, it is the call that guard is running. */
  lemma OnlyTheOwnerWritesSlots(actions: seq<Action>, r: Request)
    requires var w := Run(EmptyBucket, actions);
             r in w.net && r.SlotRequest? && Step(w, Deliver(r)) != w
    ensures var w := Run(EmptyBucket, actions);
            && r.From().Session? && OwnedBy(w, r.From().id)
            && forall t :: t in w.sessions && w.sessions[t].Holding? ==>
                 && r.From() == Session(t)
                 && (!w.sessions[t].uncertain || !w.sessions[t].control.Idle? ==>
                       w.sessions[t].control.Sent? && r == SlotRequest(w.sessions[t].control.key, w.sessions[t].control.put))
  {
    RunKeeps(actions);
    var w := Run(EmptyBucket, actions);
    if Dead(w, r) { DeadForever(w, [], r); }
    forall t | t in w.sessions && w.sessions[t].Holding?
      ensures r.From() == Session(t)
      ensures !w.sessions[t].uncertain || !w.sessions[t].control.Idle? ==>
                w.sessions[t].control.Sent? && r == SlotRequest(w.sessions[t].control.key, w.sessions[t].control.put)
    {
      assert PhaseOk(w, t, w.sessions[t]);
      if !w.sessions[t].uncertain || !w.sessions[t].control.Idle? { DelivererIsOwner(w, r.key, r.slotPut, t); }
    }
  }

  /** A guard with a clear latch and no call running has no control PUT left that could land. */
  lemma ClearLatchIsResolved(actions: seq<Action>, id: Id, more: seq<Action>, r: Request)
    requires var w := Run(EmptyBucket, actions);
             && id in w.sessions && w.sessions[id].Holding? && w.sessions[id].control.Idle? && !w.sessions[id].uncertain
             && r in w.net && r.SlotRequest? && r.From() == Session(id)
    ensures var v := Run(Run(EmptyBucket, actions), more); Step(v, Deliver(r)) == v
  {
    RunKeeps(actions);
    var w := Run(EmptyBucket, actions);
    assert PhaseOk(w, id, w.sessions[id]);
    DeadForever(w, more, r);
  }

  /** A release that returned Ok was applied, and from then on no control PUT of its session, already
      sent or not, can change a slot in any run. */
  lemma ReleaseOkIsFinal(actions: seq<Action>, id: Id, record: OwnerRecord, more: seq<Action>, r: Request)
    requires InPhase(Run(EmptyBucket, actions), id, Ended(Some(record)))
    requires r.SlotRequest? && r.From() == Session(id)
    ensures var w := Run(EmptyBucket, actions);
            && Held(w.owner, record) && record.owner == id && record.state == Released
            && var v := Run(w, more); Step(v, Deliver(r)) == v
  {
    RunKeeps(actions);
    var w := Run(EmptyBucket, actions);
    assert PhaseOk(w, id, w.sessions[id]);
    var i :| 0 <= i < |w.owner| && w.owner[i].content == record;
    assert RequestOk(w, OwnerRequest(w.owner[i]));
    assert w.owner[i].writer == Operator ==> Quiescent(w, id);
    EndedSendsNothing(w, more, id, Ended(Some(record)), r);
    if r in Run(w, more).net { DeadForever(w, more, r); }
  }

  // ------------------------------------------------- the latch

  /** The guard is gone or latched, and its release was never sent. */
  ghost predicate Latched(w: World, id: Id, owned: OwnerRecord) {
    && owned.owner == id && OwnerRequest(ReleasePut(owned)) !in w.sent && CannotRelease(w, id, owned)
  }

  ghost predicate CannotRelease(w: World, id: Id, owned: OwnerRecord) {
    && id in w.sessions
    && (w.sessions[id].Ended? || (w.sessions[id].Holding? && w.sessions[id].owned == owned && w.sessions[id].uncertain))
  }

  /** No step clears the latch. */
  lemma LatchStays(w: World, a: Action, id: Id, owned: OwnerRecord)
    requires CannotRelease(w, id, owned)
    ensures CannotRelease(Step(w, a), id, owned)
  {
  }

  lemma LatchedStep(w: World, a: Action, id: Id, owned: OwnerRecord)
    requires Inv(w) && Latched(w, id, owned)
    ensures Latched(Step(w, a), id, owned)
  {
    var r := OwnerRequest(ReleasePut(owned));
    LatchStays(w, a, id, owned);
    if r in Step(w, a).sent { SenderIsRunning(w, a, r); }
  }

  lemma {:induction false} LatchedRun(w: World, more: seq<Action>, id: Id, owned: OwnerRecord)
    requires Inv(w) && Latched(w, id, owned)
    ensures Latched(Run(w, more), id, owned)
    decreases |more|
  {
    if more != [] {
      LatchedStep(w, more[0], id, owned);
      StepKeeps(w, more[0]);
      LatchedRun(Step(w, more[0]), more[1..], id, owned);
    }
  }

  /** Where the release was never sent, only an attested operator release can follow the record. */
  lemma UnreleasedIsAttested(v: World, h: seq<OwnerPut>, owned: OwnerRecord)
    requires Inv(v) && h <= v.owner && Stored(h) == Some(owned) && owned.state == Owned
    requires OwnerRequest(ReleasePut(owned)) !in v.sent
    ensures v.owner == h || (v.owner[|h|].writer == Operator && v.owner[|h|].content.recovery.Some? && owned.owner in v.attested)
    ensures forall i :: 0 <= i < |v.owner| ==> v.owner[i].content != AsReleased(owned)
  {
    assert OwnerShape(h[|h| - 1]) by { assert h[|h| - 1] == v.owner[|h| - 1]; }
    forall i | 0 <= i < |v.owner| ensures v.owner[i].content != AsReleased(owned) {
      assert RequestOk(v, OwnerRequest(v.owner[i]));
    }
    if v.owner != h {
      var p := v.owner[|h|];
      assert RequestOk(v, OwnerRequest(p)) && p.condition == Before(v.owner, |h|);
    }
  }

  /** A latched guard never releases: in every continuation its Released record is never stored, and
      its Owned record stays until an operator who attested that it is quiescent releases it. */
  lemma LatchBlocksRelease(actions: seq<Action>, id: Id, owned: OwnerRecord, control: Control, more: seq<Action>)
    requires InPhase(Run(EmptyBucket, actions), id, Holding(owned, true, control))
    ensures var w := Run(EmptyBucket, actions);
            var v := Run(w, more);
            && (forall i :: 0 <= i < |v.owner| ==> v.owner[i].content != AsReleased(owned))
            && w.owner <= v.owner
            && (v.owner == w.owner
                || (v.owner[|w.owner|].writer == Operator && v.owner[|w.owner|].content.recovery.Some?
                    && id in v.attested && Quiescent(v, id)))
  {
    RunKeeps(actions);
    var w := Run(EmptyBucket, actions);
    assert PhaseOk(w, id, w.sessions[id]);
    var r := OwnerRequest(ReleasePut(owned));
    assert r.From() == Session(id) && r !in w.sent;
    LatchedRun(w, more, id, owned);
    RunKeepsInv(w, more);
    RunGrows(w, more, 0);
    UnreleasedIsAttested(Run(w, more), w.owner, owned);
    assert id in Run(w, more).attested ==> Quiescent(Run(w, more), id);
  }

  // ------------------------------------------------- control versions

  /** Over every run, no precondition is honoured twice: each published version, and each empty
      slot, authorizes at most one control call that returns Ok, and at most one applied PUT. */
  lemma EachVersionAuthorizesOnce(actions: seq<Action>, k: SlotKey)
    ensures var w := Run(EmptyBucket, actions);
            && (forall i, j :: 0 <= i < j < |w.oks| ==> w.oks[i] != w.oks[j])
            && (forall i, j :: 0 <= i < j < |Slot(w, k)| ==> Slot(w, k)[i].condition != Slot(w, k)[j].condition)
  {
    RunKeeps(actions);
    var w := Run(EmptyBucket, actions);
    var h := Slot(w, k);
    assert SlotHistory(h);
    SlotNeverRepeats(h);
    forall i, j | 0 <= i < j < |h| ensures h[i].condition != h[j].condition {
      assert h[i].condition == Before(h, i) && h[j].condition == Before(h, j);
    }
  }

  /** How a slot lives, over every run: a create fills an empty or cleared slot with a live record of
      an incarnation never seen there before; anything else is the next revision of the live record
      just before it. So nothing but a create follows a tombstone. */
  lemma SlotLifecycle(actions: seq<Action>, k: SlotKey, i: int)
    requires 0 <= i < |Slot(Run(EmptyBucket, actions), k)|
    ensures var h := Slot(Run(EmptyBucket, actions), k);
            if i == 0 || h[i - 1].content.payload.None? then
              && h[i].content.revision == 0 && h[i].content.payload.Some?
              && forall j :: 0 <= j < i ==> h[j].content.incarnation != h[i].content.incarnation
            else
              && h[i].content.incarnation == h[i - 1].content.incarnation
              && h[i].content.revision == h[i - 1].content.revision + 1
  {
    RunKeeps(actions);
    var h := Slot(Run(EmptyBucket, actions), k);
    assert SlotHistory(h) && SlotShape(h[i]) && h[i].condition == Before(h, i);
    if i == 0 || h[i - 1].content.payload.None? {
      forall j | 0 <= j < i ensures h[j].content.incarnation != h[i].content.incarnation {
        if h[j].content.incarnation == h[i].content.incarnation { RevisionsGrow(h, j, i); }
      }
    }
  }

  /** A call with a version the slot has left bails out before sending, forever. */
  lemma StaleVersionNeverSucceeds(actions: seq<Action>, more: seq<Action>, id: Id, k: SlotKey, v: SlotRecord, text: string)
    requires Spent(Slot(Run(EmptyBucket, actions), k), IfMatch(v))
    ensures var w := Run(Run(EmptyBucket, actions), more);
            && Step(w, PrepareSlot(id, k, Replace(v, text))) == w
            && Step(w, PrepareSlot(id, k, Remove(v))) == w
  {
    RunKeeps(actions);
    var w := Run(EmptyBucket, actions);
    SpentForever(w, more, k, IfMatch(v));
    var u := Run(w, more);
    assert Plan(Stored(Slot(u, k)), Replace(v, text)) == None && Plan(Stored(Slot(u, k)), Remove(v)) == None;
  }
}
