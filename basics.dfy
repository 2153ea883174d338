/**
 * Values shared by every part of the plugin: optional values, the outcome of
 * an operation that may throw, and JavaScript's insertion-ordered `Set`.
 */
module Basics {

  /** An optional value: JavaScript's `undefined` / "no match". */
  datatype Option<+T> = None | Some(value: T) {
    function GetOr(default: T): T {
      match this
      case Some(v) => v
      case None => default
    }
  }

  /**
   * The outcome of an operation that may throw: `Err` is an `Error` with its
   * exact message; `TypeError` is the runtime's own error for reading a
   * property of `undefined` (its message is engine-specific).
   */
  datatype Result<+T> = Ok(value: T) | Err(message: string) | TypeError {
    predicate IsFailure() { !Ok? }

    function PropagateFailure<U>(): Result<U>
      requires !Ok?
    {
      if Err? then Err(message) else TypeError
    }

    function Extract(): T
      requires Ok?
    {
      value
    }
  }

  /** Whether an operation completed, and if not, how it failed; what it computed is dropped. */
  function Outcome<T>(r: Result<T>): Result<()> {
    match r
    case Ok(_) => Ok(())
    case Err(m) => Err(m)
    case TypeError => TypeError
  }

  /** Adds each of `ts`, in order, to the insertion-ordered set `d` (`Set.prototype.add`). */
  function Extend<T(==)>(d: seq<T>, ts: seq<T>): seq<T> {
    if ts == [] then d
    else
      var e := Extend(d, ts[..|ts| - 1]);
      if ts[|ts| - 1] in e then e else e + [ts[|ts| - 1]]
  }

  /** `[...new Set(ts)]`: each element once, in order of first occurrence. */
  function Dedup<T(==)>(ts: seq<T>): seq<T> {
    Extend([], ts)
  }

  predicate Distinct<T(==)>(ts: seq<T>) {
    forall i, j :: 0 <= i < j < |ts| ==> ts[i] != ts[j]
  }

  lemma {:induction false} ExtendAppend<T>(d: seq<T>, a: seq<T>, b: seq<T>)
    ensures Extend(d, a + b) == Extend(Extend(d, a), b)
    decreases |b|
  {
    if b == [] {
      assert a + b == a;
    } else {
      assert (a + b)[..|a + b| - 1] == a + b[..|b| - 1];
      ExtendAppend(d, a, b[..|b| - 1]);
    }
  }

  /** Adding to a set keeps what was there, in place, adds exactly the new elements, and never duplicates. */
  lemma {:induction false} ExtendSpec<T>(d: seq<T>, ts: seq<T>)
    ensures forall t :: t in Extend(d, ts) <==> t in d || t in ts
    ensures Distinct(d) ==> Distinct(Extend(d, ts))
    ensures d <= Extend(d, ts)
    decreases |ts|
  {
    if ts != [] {
      var front := ts[..|ts| - 1];
      ExtendSpec(d, front);
      assert ts == front + [ts[|ts| - 1]];
    }
  }

  /**
   * `[...new Set(ts)]` holds every element of `ts` exactly once, and
   * elements seen first come first: extending the input only appends.
   */
  lemma DedupSpec<T>(a: seq<T>, b: seq<T>)
    ensures forall t :: t in Dedup(a) <==> t in a
    ensures Distinct(Dedup(a))
    ensures Dedup(a) <= Dedup(a + b)
  {
    ExtendSpec([], a);
    ExtendAppend([], a, b);
    ExtendSpec(Dedup(a), b);
  }
}
