// Go error values: three sentinels, unnamed errors, and the wrapping that
// fmt.Errorf("... %w ...") performs.
module Errors {
  datatype Cause =
    | EmptyCgroupID
    | NoContainerID
    | BadContainerID
    | NoPodUID
    | EmptyContainerID
    | EmptyStatus
    | RPC

  datatype Error =
    | NotPod
    | NotIndexed
    | ContainerNotFound
    | Plain(cause: Cause)
    | Wrap(inner: Error)

  // errors.Is
  predicate Is(e: Error, target: Error) {
    e == target || (e.Wrap? && Is(e.inner, target))
  }

  // The error at the bottom of the wrapping chain.
  function Root(e: Error): (r: Error)
    ensures !r.Wrap?
  {
    if e.Wrap? then Root(e.inner) else e
  }

  // Testing a chain against an unwrapped target is testing its root, so no error
  // answers to two of the sentinels, however deeply it is wrapped.
  lemma {:induction false} IsRoot(e: Error, target: Error)
    requires !target.Wrap?
    ensures Is(e, target) <==> Root(e) == target
  {
    if e.Wrap? {
      IsRoot(e.inner, target);
    }
  }
}
