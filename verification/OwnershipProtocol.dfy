/** Bucket ownership and control slots on an unreliable conditional store.
    Any number of sessions acquire, use and release one bucket. Every request is a
    conditional PUT. Once sent it may be executed late, several times or never; its
    response may be lost. A session may stop at any step. */
module OwnershipProtocol {
  import opened Wrappers
  import opened Shared
  import opened ConditionalStore

  /** Fresh version-4 UUIDs. */
  type Id = nat
  type SlotKey = nat

  const READBACKS: nat := 5
  const RELEASE_ROUNDS: nat := 5

  datatype OwnerState = Owned | Released
  datatype Scope = Scope(operation: string, scopes: seq<string>)
  datatype OwnerRecord = OwnerRecord(generation: nat, owner: Id, state: OwnerState, scope: Scope,
                                     recovery: Option<Receipt>)

  /** A control record; without a payload it is a tombstone. */
  datatype SlotRecord = SlotRecord(incarnation: Id, revision: nat, payload: Option<string>)

  datatype Writer = Session(id: Id) | Operator
  type OwnerPut = Put<Writer, OwnerRecord>
  type SlotPut = Put<Writer, SlotRecord>
  datatype Request = OwnerRequest(put: OwnerPut) | SlotRequest(key: SlotKey, slotPut: SlotPut) {
    function From(): Writer {
      if OwnerRequest? then put.writer else slotPut.writer
    }
  }

  datatype Edit = Write(payload: string) | Erase
  datatype SlotCall = Create(payload: string)
                    | Replace(expected: SlotRecord, payload: string)
                    | Remove(expected: SlotRecord)

  /** The one control mutation a guard runs at a time, under its mutex. */
  datatype Control = Idle
                   | Prepared(key: SlotKey, condition: Condition<SlotRecord>, edit: Edit)
                   | Sent(key: SlotKey, put: SlotPut, tries: nat)

  datatype Phase =
    | Reading(scope: Scope)
    | Qualified(scope: Scope, seen: Option<OwnerRecord>)
    | Acquiring(put: OwnerPut, tries: nat)
    | Holding(owned: OwnerRecord, uncertain: bool, control: Control)
    | Releasing(owned: OwnerRecord, rounds: nat, confirming: Option<nat>)
    | Ended(released: Option<OwnerRecord>)

  /** `owner` and `slots` list the PUTs applied at each key, oldest first: only the last
      contents are visible to anyone. `net` holds requests the store may still execute,
      `sent` every request ever sent, `attested` the owners an operator has vouched for and
      `oks` the preconditions of the control mutations that returned Ok. */
  datatype World = World(owner: seq<OwnerPut>, slots: map<SlotKey, seq<SlotPut>>, net: set<Request>,
                         sent: set<Request>, sessions: map<Id, Phase>, attested: set<Id>,
                         oks: seq<(SlotKey, Condition<SlotRecord>)>)

  const EmptyBucket := World([], map[], {}, {}, map[], {}, [])

  datatype Action =
    | Begin(id: Id, scope: Scope)
    | ReadOwner(id: Id)
    | SendAcquire(id: Id)
    | ConfirmAcquire(id: Id, read: bool, acknowledged: bool)
    | PrepareSlot(id: Id, key: SlotKey, call: SlotCall)
    | SendSlot(id: Id, incarnation: Id)
    | ConfirmSlot(id: Id, read: bool, acknowledged: bool)
    | RejectSlot(id: Id)
    | CancelSlot(id: Id)
    | MarkUncertain(id: Id)
    | BeginRelease(id: Id)
    | ReleaseRead(id: Id, read: bool)
    | ConfirmRelease(id: Id, read: bool, acknowledged: bool)
    | Stop(id: Id)
    | Deliver(request: Request)
    | Lose(request: Request)
    | Attest(id: Id)
    | OperatorRelease(expected: OwnerRecord, receipt: Receipt)

  function Slot(w: World, k: SlotKey): seq<SlotPut> {
    if k in w.slots then w.slots[k] else []
  }

  function AsReleased(r: OwnerRecord): OwnerRecord {
    r.(state := Released)
  }

  // ---------------------------------------------------------------- readback

  datatype Observed = Exact | Pending | Refuted

  /** What one readback says about a PUT whose response may be lost. `seen` is None when the
      read itself failed; `reported` is the version an acknowledgement carried. */
  function Observe<W, T(==)>(p: Put<W, T>, reported: Option<T>, seen: Option<Option<T>>): Observed {
    match seen
    case None => Pending
    case Some(None) => if p.condition.IfAbsent? then Pending else Refuted
    case Some(Some(current)) =>
      if current == p.content && (reported.None? || reported.value == current) then Exact
      else if p.condition == IfMatch(current) then Pending
      else Refuted
  }

  function Report<W, T>(p: Put<W, T>, acknowledged: bool): Option<T> {
    if acknowledged then Some(p.content) else None
  }

  function Look<W, T>(h: seq<Put<W, T>>, read: bool): Option<Option<T>> {
    if read then Some(Stored(h)) else None
  }

  // ---------------------------------------------------------------- steps

  function SendRequest(w: World, r: Request): World {
    w.(net := w.net + {r}, sent := w.sent + {r})
  }

  function Move(w: World, id: Id, p: Phase): World {
    w.(sessions := w.sessions[id := p])
  }

  const Gone := Ended(None)

  function AcquirePut(id: Id, scope: Scope, seen: Option<OwnerRecord>): OwnerPut {
    match seen
    case None => Put(Session(id), OwnerRecord(1, id, Owned, scope, None), IfAbsent)
    case Some(r) => Put(Session(id), OwnerRecord(r.generation + 1, id, Owned, scope, None), IfMatch(r))
  }

  function ReleasePut(owned: OwnerRecord): OwnerPut {
    Put(Session(owned.owner), AsReleased(owned), IfMatch(owned))
  }

  function OperatorPut(owned: OwnerRecord, receipt: Receipt): OwnerPut {
    Put(Operator, AsReleased(owned).(recovery := Some(receipt)), IfMatch(owned))
  }

  function StepReadOwner(w: World, id: Id, scope: Scope): World {
    match Stored(w.owner)
    case None => Move(w, id, Qualified(scope, None))
    case Some(r) =>
      if r.state == Owned || r.generation >= MAX_U64 then Move(w, id, Gone)
      else Move(w, id, Qualified(scope, Some(r)))
  }

  function StepConfirmAcquire(w: World, id: Id, p: Phase, a: Action): World
    requires p.Acquiring? && a.ConfirmAcquire?
  {
    match Observe(p.put, Report(p.put, a.acknowledged), Look(w.owner, a.read))
    case Exact => Move(w, id, Holding(p.put.content, false, Idle))
    case Pending => Move(w, id, if p.tries <= 1 then Gone else p.(tries := p.tries - 1))
    case Refuted => Move(w, id, Gone)
  }

  /** The precondition and edit of a control call, or None when it bails out before sending. */
  function Plan(current: Option<SlotRecord>, call: SlotCall): Option<(Condition<SlotRecord>, Edit)> {
    match call
    case Create(payload) =>
      (match current
       case None => Some((IfAbsent, Write(payload)))
       case Some(r) => if r.payload.None? then Some((IfMatch(r), Write(payload))) else None)
    case Replace(expected, payload) =>
      if current == Some(expected) && expected.payload.Some? && expected.revision < MAX_U64
      then Some((IfMatch(expected), Write(payload))) else None
    case Remove(expected) =>
      if current == Some(expected) && expected.payload.Some? && expected.revision < MAX_U64
      then Some((IfMatch(expected), Erase)) else None
  }

  predicate Starts(c: Condition<SlotRecord>) {
    c.IfAbsent? || c.version.payload.None?
  }

  function SlotContent(c: Condition<SlotRecord>, edit: Edit, incarnation: Id): SlotRecord {
    var payload := if edit.Write? then Some(edit.payload) else None;
    if Starts(c) then SlotRecord(incarnation, 0, payload)
    else SlotRecord(c.version.incarnation, c.version.revision + 1, payload)
  }

  predicate Fresh(w: World, incarnation: Id) {
    forall r :: r in w.sent && r.SlotRequest? ==> r.slotPut.content.incarnation != incarnation
  }

  function StepSendSlot(w: World, id: Id, p: Phase, incarnation: Id): World
    requires p.Holding? && p.control.Prepared?
  {
    var c := p.control;
    var put := Put(Session(id), SlotContent(c.condition, c.edit, incarnation), c.condition);
    Move(SendRequest(w, SlotRequest(c.key, put)), id, p.(control := Sent(c.key, put, READBACKS)))
  }

  /** Absent or other contents never refute a control PUT: it may still land. */
  function StepConfirmSlot(w: World, id: Id, p: Phase, a: Action): World
    requires p.Holding? && p.control.Sent? && a.ConfirmSlot?
  {
    var c := p.control;
    if Observe(c.put, Report(c.put, a.acknowledged), Look(Slot(w, c.key), a.read)) == Exact then
      Move(w, id, p.(control := Idle)).(oks := w.oks + [(c.key, c.put.condition)])
    else if c.tries <= 1 then Move(w, id, p.(uncertain := true, control := Idle))
    else Move(w, id, p.(control := c.(tries := c.tries - 1)))
  }

  function StepReleaseRead(w: World, id: Id, p: Phase, read: bool): World
    requires p.Releasing? && p.confirming.None? && p.rounds > 0
  {
    if !read then Move(w, id, if p.rounds == 1 then Gone else p.(rounds := p.rounds - 1))
    else if Stored(w.owner) == Some(AsReleased(p.owned)) then Move(w, id, Ended(Some(AsReleased(p.owned))))
    else if Stored(w.owner) != Some(p.owned) then Move(w, id, Gone)
    else Move(SendRequest(w, OwnerRequest(ReleasePut(p.owned))), id, p.(confirming := Some(READBACKS)))
  }

  function StepConfirmRelease(w: World, id: Id, p: Phase, a: Action): World
    requires p.Releasing? && p.confirming.Some? && a.ConfirmRelease?
  {
    var put := ReleasePut(p.owned);
    var retry := if p.rounds <= 1 then Gone else p.(rounds := p.rounds - 1, confirming := None);
    match Observe(put, Report(put, a.acknowledged), Look(w.owner, a.read))
    case Exact => Move(w, id, Ended(Some(AsReleased(p.owned))))
    case Pending => Move(w, id, if p.confirming.value <= 1 then retry else p.(confirming := Some(p.confirming.value - 1)))
    case Refuted => Move(w, id, retry)
  }

  function StepDeliver(w: World, r: Request): World {
    match r
    case OwnerRequest(p) => w.(owner := Execute(w.owner, p))
    case SlotRequest(k, p) =>
      if Accepts(Slot(w, k), p.condition) then w.(slots := w.slots[k := Execute(Slot(w, k), p)]) else w
  }

  /** What an operator may attest: the writer stopped for good and none of its requests is left. */
  ghost predicate Quiescent(w: World, id: Id) {
    id in w.sessions && w.sessions[id].Ended? && forall r :: r in w.net ==> r.From() != Session(id)
  }

  /** One step of one session while it is in phase `p`. */
  function StepSession(w: World, p: Phase, a: Action): World {
    match a
    case ReadOwner(id) => if p.Reading? then StepReadOwner(w, id, p.scope) else w
    case SendAcquire(id) =>
      if p.Qualified? then
        var put := AcquirePut(id, p.scope, p.seen);
        Move(SendRequest(w, OwnerRequest(put)), id, Acquiring(put, READBACKS))
      else w
    case ConfirmAcquire(id, _, _) => if p.Acquiring? then StepConfirmAcquire(w, id, p, a) else w
    case PrepareSlot(id, key, call) =>
      if p.Holding? && p.control.Idle? && !p.uncertain then
        match Plan(Stored(Slot(w, key)), call)
        case None => w
        case Some(plan) => Move(w, id, p.(control := Prepared(key, plan.0, plan.1)))
      else w
    case SendSlot(id, incarnation) =>
      if p.Holding? && p.control.Prepared? && Fresh(w, incarnation)
      then StepSendSlot(w, id, p, incarnation) else w
    case ConfirmSlot(id, _, _) =>
      if p.Holding? && p.control.Sent? then StepConfirmSlot(w, id, p, a) else w
    case RejectSlot(id) =>
      if p.Holding? && p.control.Sent? then
        Move(w, id, p.(control := Idle)).(net := w.net - {SlotRequest(p.control.key, p.control.put)})
      else w
    case CancelSlot(id) =>
      if p.Holding? then Move(w, id, p.(uncertain := p.uncertain || p.control.Sent?, control := Idle)) else w
    case MarkUncertain(id) => if p.Holding? then Move(w, id, p.(uncertain := true)) else w
    case BeginRelease(id) =>
      if p.Holding? && p.control.Idle? then
        Move(w, id, if p.uncertain then Gone else Releasing(p.owned, RELEASE_ROUNDS, None))
      else w
    case ReleaseRead(id, read) =>
      if p.Releasing? && p.confirming.None? && p.rounds > 0 then StepReleaseRead(w, id, p, read) else w
    case ConfirmRelease(id, _, _) =>
      if p.Releasing? && p.confirming.Some? then StepConfirmRelease(w, id, p, a) else w
    case Stop(id) => if p.Ended? then w else Move(w, id, Gone)
    case _ => w
  }

  predicate OfSession(a: Action) {
    !(a.Begin? || a.Deliver? || a.Lose? || a.Attest? || a.OperatorRelease?)
  }

  /** One step of the world. An action that is not enabled changes nothing. */
  ghost function Step(w: World, a: Action): World {
    match a
    case Begin(id, scope) => if id in w.sessions then w else Move(w, id, Reading(scope))
    case Deliver(r) => if r in w.net then StepDeliver(w, r) else w
    case Lose(r) => w.(net := w.net - {r})
    case Attest(id) => if Quiescent(w, id) then w.(attested := w.attested + {id}) else w
    case OperatorRelease(expected, receipt) =>
      if expected.state == Owned && expected.owner in w.attested && Held(w.owner, expected)
      then SendRequest(w, OwnerRequest(OperatorPut(expected, receipt))) else w
    case _ => if a.id in w.sessions then StepSession(w, w.sessions[a.id], a) else w
  }

  ghost function Run(w: World, actions: seq<Action>): World
    decreases |actions|
  {
    if actions == [] then w else Run(Step(w, actions[0]), actions[1..])
  }
}
