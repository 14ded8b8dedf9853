// The mutable heart of one asynchronous call (`Inner`) and the decisions taken under its
// lock, as functions.

module EngineSections {
  import opened Results

  datatype Inner = Inner(status: HResult, size: nat, canceled: bool, cleanedUp: bool)

  const FRESH := Inner(E_PENDING, 0, false, false)

  // `complete_state`: true when this completion is the one that counts.
  function Complete(i: Inner, result: HResult, size: nat): (Inner, bool) {
    if i.status != E_PENDING then (i, false) else (i.(status := result, size := size), true)
  }

  // `cleanup`: true for the one caller that sends Cleanup and takes the state.
  function ClaimCleanup(i: Inner): (Inner, bool) {
    (i.(cleanedUp := true), !i.cleanedUp)
  }

  // `XAsyncCancel`: true when the provider is to be told.
  function RequestCancel(i: Inner): (Inner, bool) {
    if i.status != E_PENDING || i.canceled then (i, false) else (i.(canceled := true), true)
  }

  // `XAsyncGetStatus` releases a finished call that has no result to fetch.
  predicate StatusCleansUp(i: Inner) {
    i.status != E_PENDING && i.size == 0
  }

  datatype Verdict = StillPending | Failed(hr: HResult) | WrongIdentity | TooSmall | Deliver

  // `XAsyncGetResult`, in the order it tests.
  function ResultVerdict(i: Inner, identityOk: bool, bufferSize: nat): (v: Verdict)
    ensures v.Deliver? <==> i.status == S_OK && identityOk && i.size <= bufferSize
    ensures v.Failed? <==> i.status != S_OK && i.status != E_PENDING
    ensures v.Failed? ==> v.hr == i.status
    ensures v.StillPending? <==> i.status == E_PENDING
    ensures v.WrongIdentity? <==> i.status == S_OK && !identityOk
    ensures v.TooSmall? <==> i.status == S_OK && identityOk && bufferSize < i.size
  {
    if i.status == E_PENDING then StillPending
    else if i.status != S_OK then Failed(i.status)
    else if !identityOk then WrongIdentity
    else if bufferSize < i.size then TooSmall
    else Deliver
  }

  predicate Refuses(v: Verdict) {
    v.StillPending? || v.WrongIdentity? || v.TooSmall?
  }
}
