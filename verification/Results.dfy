// None stands for every way a step can fail to deliver: a returned error, a failed
// assertion, a panic on an unwrap, or an aborted transaction.
module Results {
  datatype Option<+T> = None | Some(value: T) {
    predicate IsFailure() { None? }

    function PropagateFailure<U>(): Option<U>
      requires None?
    {
      None
    }

    function Extract(): T
      requires Some?
    {
      value
    }
  }

  function Check(b: bool): Option<()> {
    if b then Some(()) else None
  }
}
