/** The remote slot, cleared by tombstones, is a register. */
module S3Register {
  import opened Wrappers
  import opened ConditionalStore
  import opened OwnershipProtocol
  import opened OwnershipInvariant
  import opened OwnershipSteps
  import opened OwnershipTheorems
  import opened CasRegister

  ghost function Live(r: SlotRecord): Option<SlotRecord> {
    if r.payload.Some? then Some(r) else None
  }

  /** `load` shows the last record unless it is a tombstone; every earlier live record is used up. */
  ghost function SlotRegister(h: seq<SlotPut>): Register<SlotRecord> {
    Register(if h == [] then None else Live(h[|h| - 1].content),
             set i | 0 <= i < |h| - 1 && h[i].content.payload.Some? :: h[i].content)
  }

  lemma AppendIsRegisterStep(h: seq<SlotPut>, p: SlotPut)
    requires NeverRepeats(h + [p])
    ensures Next(SlotRegister(h), SlotRegister(h + [p])) && Free(SlotRegister(h + [p]), SlotRegister(h + [p]).value)
  {
    var g := h + [p];
    var r, s := SlotRegister(h), SlotRegister(g);
    if h == [] {
      assert r.retired == s.retired == {};
    } else {
      var last := h[|h| - 1].content;
      var added := if last.payload.Some? then {last} else {};
      assert s.retired == r.retired + added by {
        forall v | v in s.retired ensures v in r.retired + added {
          var i :| 0 <= i < |g| - 1 && g[i].content.payload.Some? && v == g[i].content;
          assert i < |h| - 1 ==> h[i].content in r.retired;
        }
        forall v | v in r.retired + added ensures v in s.retired {
          if v in r.retired {
            var i :| 0 <= i < |h| - 1 && h[i].content.payload.Some? && v == h[i].content;
            assert g[i].content in s.retired;
          } else {
            assert g[|h| - 1].content in s.retired;
          }
        }
      }
      if last.payload.Some? { assert Retires(r, s, last); }
    }
  }

  /** Every step of every run moves each remote slot as the register moves. */
  lemma SlotRefinesRegister(actions: seq<Action>, a: Action, k: SlotKey)
    ensures var w := Run(EmptyBucket, actions);
            Next(SlotRegister(Slot(w, k)), SlotRegister(Slot(Step(w, a), k)))
  {
    RunKeeps(actions);
    var w := Run(EmptyBucket, actions);
    StepKeeps(w, a);
    var h, g := Slot(w, k), Slot(Step(w, a), k);
    assert SlotHistory(g);
    SlotNeverRepeats(g);
    if g != h {
      if !a.Deliver? { SessionsDoNotWrite(w, a); }
      AppendIsRegisterStep(h, a.request.slotPut);
    }
  }

  /** What the register of a slot means, over every run: its value is the live record that `load` shows,
      a version that authorized an acknowledged replace or remove is retired, and a retired version is
      one the slot has left, which no call can name again. */
  lemma RegisterMeaning(actions: seq<Action>, k: SlotKey, v: SlotRecord)
    ensures var w := Run(EmptyBucket, actions);
            var r := SlotRegister(Slot(w, k));
            && (r.value == Some(v) <==> Stored(Slot(w, k)) == Some(v) && v.payload.Some?)
            && ((k, IfMatch(v)) in w.oks && v.payload.Some? ==> v in r.retired)
            && (v in r.retired ==> v.payload.Some? && Held(Slot(w, k), v) && !Accepts(Slot(w, k), IfMatch(v)))
  {
    RunKeeps(actions);
    var w := Run(EmptyBucket, actions);
    var h := Slot(w, k);
    assert SlotHistory(h);
    SlotNeverRepeats(h);
    if (k, IfMatch(v)) in w.oks {
      var i :| 0 <= i < |w.oks| && w.oks[i] == (k, IfMatch(v));
      assert Spent(Slot(w, w.oks[i].0), w.oks[i].1);
    }
  }

  /** The slot of each prefix of a run, seen as a register. */
  ghost function SlotTrace(actions: seq<Action>, k: SlotKey): seq<Register<SlotRecord>> {
    seq(|actions| + 1, n requires 0 <= n <= |actions| => SlotRegister(Slot(Run(EmptyBucket, actions[..n]), k)))
  }

  lemma SlotTraceIsHistory(actions: seq<Action>, k: SlotKey)
    ensures History(SlotTrace(actions, k))
  {
    var rs := SlotTrace(actions, k);
    assert actions[..0] == [];
    forall i | 0 < i < |rs| ensures Next(rs[i - 1], rs[i]) {
      assert actions[..i] == actions[..i - 1] + [actions[i - 1]];
      RunOneMore(EmptyBucket, actions[..i - 1], actions[i - 1]);
      SlotRefinesRegister(actions[..i - 1], actions[i - 1], k);
    }
  }
}
