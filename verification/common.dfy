/** Shared vocabulary: optional values, results, the exceptions the Python
    code raises, and enumerations of sets (the order in which Python walks a
    `set`). */
module Common {

  datatype Option<+T> = None | Some(value: T)

  datatype Result<+T, +E> = Ok(value: T) | Err(error: E) {
    predicate IsFailure() { Err? }
    function PropagateFailure<U>(): Result<U, E>
      requires Err?
    {
      Err(error)
    }
    function Extract(): T
      requires Ok?
    {
      value
    }
  }

  /** The Python exceptions that leave the modelled code. */
  datatype Failure =
    | ValueError(msg: string)
    | TypeError(msg: string)
    | KeyError(msg: string)
    | AssertionError(msg: string)
    | AttributeError(msg: string)
    | SilentError(msg: string)
    | CommandError(msg: string)
    | DBError(msg: string)
    | StructError(msg: string)
    /** an error sqlite3 raises while running a statement */
    | SqlError(msg: string)
    | BadSignatureError

  /** `xs` lists every element of `s` exactly once: one possible iteration
      order of a Python set. */
  ghost predicate Enumerates<T>(xs: seq<T>, s: set<T>)
  {
    && Elements(xs) == s
    && (forall i, j :: 0 <= i < j < |xs| ==> xs[i] != xs[j])
  }

  /** Every finite set can be iterated: an enumeration always exists, so a
      requirement that `order` enumerates a set never excludes an input. */
  lemma {:induction false} EnumerationExists<T>(s: set<T>)
    ensures exists xs :: Enumerates(xs, s)
    decreases |s|
  {
    if s == {} {
      assert Enumerates([], s);
    } else {
      var x :| x in s;
      EnumerationExists(s - {x});
      var ys :| Enumerates(ys, s - {x});
      var xs := [x] + ys;
      assert Elements(xs) == {x} + Elements(ys);
      forall i, j | 0 <= i < j < |xs|
        ensures xs[i] != xs[j]
      {
        if i > 0 {
          assert xs[i] == ys[i - 1] && xs[j] == ys[j - 1];
        } else {
          assert xs[j] == ys[j - 1];
        }
      }
      assert Enumerates(xs, s);
    }
  }

  /** The set of elements of a sequence. */
  function Elements<T>(xs: seq<T>): set<T>
  {
    set x | x in xs
  }

  /** Only the empty sequence enumerates the empty set. */
  lemma EnumerationOfEmpty<T>(xs: seq<T>)
    ensures Elements(xs) == {} ==> xs == []
  {
    if |xs| > 0 {
      assert xs[0] in Elements(xs);
    }
  }
}
