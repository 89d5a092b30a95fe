/** Where the contents of a control slot come from: every record goes back to one create, replace or
    remove that was allowed when it was asked for. */
module OwnershipCalls {
  import opened Wrappers
  import opened Shared
  import opened ConditionalStore
  import opened OwnershipProtocol
  import opened OwnershipInvariant
  import opened OwnershipSteps
  import opened OwnershipTheorems

  /** The record a control call leaves behind when it succeeds. */
  ghost function Result(call: SlotCall, incarnation: Id): SlotRecord {
    match call
    case Create(text) => SlotRecord(incarnation, 0, Some(text))
    case Replace(was, text) => SlotRecord(was.incarnation, was.revision + 1, Some(text))
    case Remove(was) => SlotRecord(was.incarnation, was.revision + 1, None)
  }

  /** Create needs a slot without a live record; replace and remove need exactly the expected one. */
  ghost predicate Allowed(current: Option<SlotRecord>, call: SlotCall) {
    if call.Create? then current.None? || current.value.payload.None?
    else current == Some(call.expected) && call.expected.payload.Some? && call.expected.revision < MAX_U64
  }

  /** The precondition and the edit that a call stands for. */
  ghost predicate Means(call: SlotCall, c: Condition<SlotRecord>, edit: Edit) {
    match call
    case Create(text) => Starts(c) && edit == Write(text)
    case Replace(was, text) => c == IfMatch(was) && was.payload.Some? && edit == Write(text)
    case Remove(was) => c == IfMatch(was) && was.payload.Some? && edit == Erase
  }

  /** The guard is idle and its latch is clear. */
  ghost predicate ReadyFor(w: World, id: Id) {
    id in w.sessions && w.sessions[id].Holding? && !w.sessions[id].uncertain && w.sessions[id].control.Idle?
  }

  /** A call goes ahead exactly when its guard is ready and the slot allows it; it then carries the
      precondition and edit it stands for. Otherwise nothing happens at all. */
  lemma CallGoesAheadIff(w: World, id: Id, k: SlotKey, call: SlotCall)
    ensures Step(w, PrepareSlot(id, k, call)) != w <==> ReadyFor(w, id) && Allowed(Stored(Slot(w, k)), call)
    ensures Step(w, PrepareSlot(id, k, call)) != w ==>
              var c := Step(w, PrepareSlot(id, k, call)).sessions[id].control;
              c.Prepared? && c.key == k && Accepts(Slot(w, k), c.condition) && Means(call, c.condition, c.edit)
  {
    if ReadyFor(w, id) {
      var plan := Plan(Stored(Slot(w, k)), call);
      assert plan.Some? ==> Step(w, PrepareSlot(id, k, call)).sessions[id].control == Prepared(k, plan.value.0, plan.value.1);
    }
  }

  /** The `n`-th action of the run asks for a call with this precondition and edit, and it is allowed. */
  ghost predicate AsksAt(actions: seq<Action>, n: int, id: Id, k: SlotKey, c: Condition<SlotRecord>, edit: Edit)
    requires 0 <= n < |actions|
  {
    && actions[n].PrepareSlot? && actions[n].id == id && actions[n].key == k
    && Means(actions[n].call, c, edit)
    && var w := Run(EmptyBucket, actions[..n]);
       ReadyFor(w, id) && Allowed(Stored(Slot(w, k)), actions[n].call)
  }

  ghost predicate Asked(actions: seq<Action>, id: Id, k: SlotKey, c: Condition<SlotRecord>, edit: Edit) {
    exists n :: 0 <= n < |actions| && AsksAt(actions, n, id, k, c, edit)
  }

  lemma AskedStays(before: seq<Action>, a: Action, id: Id, k: SlotKey, c: Condition<SlotRecord>, edit: Edit)
    requires Asked(before, id, k, c, edit)
    ensures Asked(before + [a], id, k, c, edit)
  {
    var n :| 0 <= n < |before| && AsksAt(before, n, id, k, c, edit);
    assert (before + [a])[..n] == before[..n];
    assert AsksAt(before + [a], n, id, k, c, edit);
  }

  ghost predicate IsPrepared(w: World, id: Id, k: SlotKey, c: Condition<SlotRecord>, edit: Edit) {
    id in w.sessions && w.sessions[id].Holding? && w.sessions[id].control == Prepared(k, c, edit)
  }

  lemma BecomesPrepared(w: World, a: Action, id: Id, k: SlotKey, c: Condition<SlotRecord>, edit: Edit)
    requires IsPrepared(Step(w, a), id, k, c, edit) && !IsPrepared(w, id, k, c, edit)
    ensures a.PrepareSlot? && a.id == id && a.key == k && Step(w, a) != w
  {
  }

  lemma {:induction false} PreparedWasAsked(actions: seq<Action>, id: Id, k: SlotKey, c: Condition<SlotRecord>, edit: Edit)
    requires IsPrepared(Run(EmptyBucket, actions), id, k, c, edit)
    ensures Asked(actions, id, k, c, edit)
    decreases |actions|
  {
    if actions != [] {
      var before, a := actions[..|actions| - 1], actions[|actions| - 1];
      assert actions == before + [a];
      RunOneMore(EmptyBucket, before, a);
      var w := Run(EmptyBucket, before);
      if IsPrepared(w, id, k, c, edit) {
        PreparedWasAsked(before, id, k, c, edit);
        AskedStays(before, a, id, k, c, edit);
      } else {
        BecomesPrepared(w, a, id, k, c, edit);
        CallGoesAheadIff(w, id, k, a.call);
        assert AsksAt(actions, |before|, id, k, c, edit);
      }
    }
  }

  /** The request carries out a call that its own session asked for. */
  ghost predicate CarriesOut(actions: seq<Action>, k: SlotKey, p: SlotPut) {
    exists id, edit, incarnation :: && p.writer == Session(id) && Asked(actions, id, k, p.condition, edit)
                                    && p.content == SlotContent(p.condition, edit, incarnation)
  }

  lemma CarriesOutStays(before: seq<Action>, a: Action, k: SlotKey, p: SlotPut)
    requires CarriesOut(before, k, p)
    ensures CarriesOut(before + [a], k, p)
  {
    var id, edit, incarnation :| p.writer == Session(id) && Asked(before, id, k, p.condition, edit)
                                 && p.content == SlotContent(p.condition, edit, incarnation);
    AskedStays(before, a, id, k, p.condition, edit);
  }

  /** A control PUT is sent only from a prepared call. */
  lemma SentFromPrepared(w: World, a: Action, k: SlotKey, p: SlotPut)
    requires SlotRequest(k, p) in Step(w, a).sent && SlotRequest(k, p) !in w.sent
    ensures a.SendSlot? && a.id in w.sessions && w.sessions[a.id].Holding? && w.sessions[a.id].control.Prepared?
    ensures var c := w.sessions[a.id].control;
            c.key == k && p == Put(Session(a.id), SlotContent(c.condition, c.edit, a.incarnation), c.condition)
  {
  }

  lemma {:induction false} SentWasAsked(actions: seq<Action>, k: SlotKey, p: SlotPut)
    requires SlotRequest(k, p) in Run(EmptyBucket, actions).sent
    ensures CarriesOut(actions, k, p)
    decreases |actions|
  {
    if actions != [] {
      var before, a := actions[..|actions| - 1], actions[|actions| - 1];
      assert actions == before + [a];
      RunOneMore(EmptyBucket, before, a);
      var w := Run(EmptyBucket, before);
      if SlotRequest(k, p) in w.sent {
        SentWasAsked(before, k, p);
        CarriesOutStays(before, a, k, p);
      } else {
        SentFromPrepared(w, a, k, p);
        var c := w.sessions[a.id].control;
        PreparedWasAsked(before, a.id, k, c.condition, c.edit);
        AskedStays(before, a, a.id, k, c.condition, c.edit);
      }
    }
  }

  /** The `i`-th record of the slot is the result of this call on the records before it. */
  ghost predicate ResultsFrom(h: seq<SlotPut>, i: int, call: SlotCall)
    requires 0 <= i < |h|
  {
    && (exists incarnation :: h[i].content == Result(call, incarnation))
    && if call.Create? then i == 0 || h[i - 1].content.payload.None?
       else i > 0 && h[i - 1].content == call.expected && call.expected.payload.Some?
  }

  lemma ResultOfCall(h: seq<SlotPut>, i: int, call: SlotCall, edit: Edit, incarnation: Id)
    requires 0 <= i < |h| && Chained(h) && Means(call, h[i].condition, edit)
    requires h[i].content == SlotContent(h[i].condition, edit, incarnation)
    ensures ResultsFrom(h, i, call)
  {
    assert h[i].condition == Before(h, i);
    assert h[i].content == Result(call, incarnation);
  }

  /** Over every run each record a slot has held is the result of one create, replace or remove that a
      ready guard asked for and the slot allowed: a create only ever fills an empty or cleared slot,
      and a replace or remove only ever follows exactly the live record it named. */
  lemma EveryRecordWasAsked(actions: seq<Action>, k: SlotKey, i: int) returns (n: nat)
    requires 0 <= i < |Slot(Run(EmptyBucket, actions), k)|
    ensures n < |actions| && actions[n].PrepareSlot? && actions[n].key == k
    ensures Slot(Run(EmptyBucket, actions), k)[i].writer == Session(actions[n].id)
    ensures var w := Run(EmptyBucket, actions[..n]);
            ReadyFor(w, actions[n].id) && Allowed(Stored(Slot(w, k)), actions[n].call)
    ensures ResultsFrom(Slot(Run(EmptyBucket, actions), k), i, actions[n].call)
  {
    RunKeeps(actions);
    var w := Run(EmptyBucket, actions);
    var h := Slot(w, k);
    var p := h[i];
    assert SlotHistory(h) && SlotRequest(k, p) in w.sent;
    SentWasAsked(actions, k, p);
    var id, edit, incarnation :| p.writer == Session(id) && Asked(actions, id, k, p.condition, edit)
                                 && p.content == SlotContent(p.condition, edit, incarnation);
    n :| 0 <= n < |actions| && AsksAt(actions, n, id, k, p.condition, edit);
    ResultOfCall(h, i, actions[n].call, edit, incarnation);
  }
}
