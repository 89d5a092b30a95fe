/** The compare-and-swap register that both control-slot implementations refine.
    `value` is the version a reader sees; a version is retired when it has authorized a
    replace or remove. Changes that were not acknowledged may come and go. */
module CasRegister {
  import opened Wrappers

  datatype Register<V> = Register(value: Option<V>, retired: set<V>)

  ghost predicate Free<V>(r: Register<V>, v: Option<V>) {
    v.Some? ==> v.value !in r.retired
  }

  /** A change that uses up no version: nothing, a create, an unacknowledged change, a crash. */
  ghost predicate Shifts<V>(r: Register<V>, s: Register<V>) {
    s.retired == r.retired && (s.value == r.value || Free(r, s.value))
  }

  /** A successful replace or remove of the visible version `v`. */
  ghost predicate Retires<V>(r: Register<V>, s: Register<V>, v: V) {
    r.value == Some(v) && s.retired == r.retired + {v} && Free(s, s.value)
  }

  ghost predicate Next<V(!new)>(r: Register<V>, s: Register<V>) {
    Shifts(r, s) || exists v :: Retires(r, s, v)
  }

  ghost predicate History<V(!new)>(rs: seq<Register<V>>) {
    && (rs != [] ==> Free(rs[0], rs[0].value))
    && forall i {:trigger rs[i]} :: 0 < i < |rs| ==> Next(rs[i - 1], rs[i])
  }

  /** Retired versions stay retired, and are never visible again. */
  lemma {:induction false} RetiredStays<V(!new)>(rs: seq<Register<V>>, i: int, j: int)
    requires History(rs) && 0 <= i <= j < |rs|
    ensures rs[i].retired <= rs[j].retired && Free(rs[j], rs[j].value)
    decreases j
  {
    if j > 0 {
      assert Next(rs[j - 1], rs[j]);
      if i < j { RetiredStays(rs, i, j - 1); } else { RetiredStays(rs, j - 1, j - 1); }
    }
  }

  /** Across every history each version authorizes at most one successful replace or remove. */
  lemma VersionRetiresOnce<V(!new)>(rs: seq<Register<V>>, i: int, j: int, v: V)
    requires History(rs) && 0 < i < j < |rs|
    requires Retires(rs[i - 1], rs[i], v)
    ensures !Retires(rs[j - 1], rs[j], v) && rs[j].value != Some(v)
  {
    RetiredStays(rs, i, j - 1);
    RetiredStays(rs, i, j);
  }
}
