/** An object key that is changed only by conditional PUTs.
    A version (ETag) is an injective digest of the stored contents and nothing else,
    so it is represented by those contents. A key that returned to earlier contents
    would therefore accept a stale precondition again: freedom from ABA is something
    the protocols below have to establish. */
module ConditionalStore {
  import opened Wrappers

  /** Sections 13.1.1 and 13.1.2 of RFC 9110: `If-None-Match: *` and `If-Match`. */
  datatype Condition<+T> = IfAbsent | IfMatch(version: T)

  datatype Put<+W, +T> = Put(writer: W, content: T, condition: Condition<T>)

  /** The contents of a key whose applied PUTs are `h`. */
  function Stored<W, T>(h: seq<Put<W, T>>): Option<T> {
    if h == [] then None else Some(h[|h| - 1].content)
  }

  predicate Accepts<W, T(==)>(h: seq<Put<W, T>>, c: Condition<T>) {
    match c
    case IfAbsent => h == []
    case IfMatch(v) => Stored(h) == Some(v)
  }

  /** The server executes one copy of a PUT, now. */
  function Execute<W, T(==)>(h: seq<Put<W, T>>, p: Put<W, T>): seq<Put<W, T>> {
    if Accepts(h, p.condition) then h + [p] else h
  }

  ghost function Before<W, T>(h: seq<Put<W, T>>, i: int): Condition<T>
    requires 0 <= i <= |h|
  {
    if i == 0 then IfAbsent else IfMatch(h[i - 1].content)
  }

  /** Each applied PUT named exactly the state it replaced. */
  ghost predicate Chained<W, T>(h: seq<Put<W, T>>) {
    forall i {:trigger Before(h, i)} :: 0 <= i < |h| ==> h[i].condition == Before(h, i)
  }

  ghost predicate NeverRepeats<W, T>(h: seq<Put<W, T>>) {
    forall i, j :: 0 <= i < j < |h| ==> h[i].content != h[j].content
  }

  ghost predicate Held<W, T>(h: seq<Put<W, T>>, v: T) {
    exists i :: 0 <= i < |h| && h[i].content == v
  }

  /** The precondition names a state that the key has already left. */
  ghost predicate Spent<W, T>(h: seq<Put<W, T>>, c: Condition<T>) {
    match c
    case IfAbsent => h != []
    case IfMatch(v) => exists i :: 0 <= i < |h| - 1 && h[i].content == v
  }

  lemma SpentIsRefused<W, T>(h: seq<Put<W, T>>, c: Condition<T>)
    requires NeverRepeats(h) && Spent(h, c)
    ensures !Accepts(h, c)
  {
  }

  lemma SpentStays<W, T>(h: seq<Put<W, T>>, p: Put<W, T>, c: Condition<T>)
    requires Spent(h, c)
    ensures Spent(h + [p], c)
  {
    if c.IfMatch? {
      var i :| 0 <= i < |h| - 1 && h[i].content == c.version;
      assert (h + [p])[i].content == c.version;
    }
  }

  lemma HeldStays<W, T>(h: seq<Put<W, T>>, p: Put<W, T>, v: T)
    requires Held(h, v)
    ensures Held(h + [p], v)
  {
    var i :| 0 <= i < |h| && h[i].content == v;
    assert (h + [p])[i].content == v;
  }

  /** An applied PUT has consumed its precondition. */
  lemma AppliedIsSpent<W, T>(h: seq<Put<W, T>>, i: int)
    requires Chained(h) && 0 <= i < |h|
    ensures Spent(h, h[i].condition)
  {
    assert h[i].condition == Before(h, i);
  }

  /** A state the key held and no longer holds cannot be named again. */
  lemma LeftIsSpent<W, T>(h: seq<Put<W, T>>, v: T)
    requires Held(h, v) && Stored(h) != Some(v)
    ensures Spent(h, IfMatch(v))
  {
    var i :| 0 <= i < |h| && h[i].content == v;
    assert i < |h| - 1;
  }
}
