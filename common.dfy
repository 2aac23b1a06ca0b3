/** Failure-carrying values shared by every module of the model.

    The scheduler is a Python script: a missing dictionary key, an index past
    the end of a list, subscripting an `int` or calling a method on `None`
    raises, and nothing in the reconciliation loop catches it.  The model turns
    each such raise into an `Err` value naming the Python exception, so that
    every error path of the source is an ordinary result here. */
module Common {

  datatype Option<+T> = None | Some(value: T)

  /** The Python exception a step raises. */
  datatype Error =
    | KeyError(key: string)   // dict lookup of an absent key
    | IndexError              // list index out of range
    | TypeError               // subscripting a value that is not a dict
    | AttributeError          // `.group(...)` on a failed `re.match`, which is `None`
    | Exhausted               // every injected name candidate collided (see Provisioning)

  datatype Result<+T> = Ok(value: T) | Err(error: Error)

  /** Sequence facts the solver proves cheaply on their own, stated once so
      that larger proofs need not redo them. */
  lemma DropCons<T>(s: seq<T>, k: nat)
    requires k < |s|
    ensures s[k..] == [s[k]] + s[k + 1..]
  {
  }

  lemma LastSplit<T>(s: seq<T>)
    requires |s| > 0
    ensures s == s[..|s| - 1] + [s[|s| - 1]]
  {
  }

  lemma PrefixSnoc<T>(s: seq<T>, j: nat)
    requires j < |s|
    ensures s[..j + 1] == s[..j] + [s[j]]
  {
  }

  lemma AppendAssociates<T>(a: seq<T>, b: seq<T>, c: seq<T>)
    ensures (a + b) + c == a + (b + c)
  {
  }
}
