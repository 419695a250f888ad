/** Start-up: `wait_for_flight_data` and `wait_for_intellivibe_data` sleep,
    try to open their shared-memory segment, and call themselves again on
    failure until an open succeeds. The two are one routine at two record
    types, modelled once over the sequence of outcomes the successive opens
    return. A finite sequence without a success stands for a prefix of the
    unbounded wait: the routine has not returned yet. */
module Acquisition {
  import opened Snapshots

  /** Where a wait stands after the attempts seen so far. */
  datatype WaitOutcome<H> = StillWaiting | Ready(handle: H, failedAttempts: nat)

  /** Reference definition of the retry recursion: the handle of the first
      successful open, and how many failed opens came before it. */
  function FirstOpened<H>(attempts: seq<OpenResult<H>>): (outcome: WaitOutcome<H>)
    ensures outcome.StillWaiting? <==> forall j :: 0 <= j < |attempts| ==> attempts[j].Unavailable?
    ensures outcome.Ready? ==>
      outcome.failedAttempts < |attempts| &&
      attempts[outcome.failedAttempts] == Opened(outcome.handle) &&
      forall j :: 0 <= j < outcome.failedAttempts ==> attempts[j].Unavailable?
  {
    if attempts == [] then StillWaiting
    else match attempts[0]
      case Opened(h) => Ready(h, 0)
      case Unavailable =>
        match FirstOpened(attempts[1..])
        case StillWaiting => StillWaiting
        case Ready(h, n) => Ready(h, n + 1)
  }

  /** The retry loop: keeps trying while the segment is unavailable and hands
      back the first handle that opens; a failure never reaches the caller. */
  method WaitForOpen<H>(attempts: seq<OpenResult<H>>) returns (outcome: WaitOutcome<H>)
    ensures outcome == FirstOpened(attempts)
    ensures outcome.Ready? ==>
      outcome.failedAttempts < |attempts| &&
      attempts[outcome.failedAttempts] == Opened(outcome.handle) &&
      forall j :: 0 <= j < outcome.failedAttempts ==> attempts[j].Unavailable?
  {
    var i := 0;
    while i < |attempts|
      invariant 0 <= i <= |attempts|
      invariant forall j :: 0 <= j < i ==> attempts[j].Unavailable?
    {
      if attempts[i].Opened? {
        return Ready(attempts[i].handle, i);
      }
      i := i + 1;
    }
    return StillWaiting;
  }

  /** Failed opens only delay the wait: after k failures the outcome is the
      outcome of the remaining attempts, counted k attempts later. */
  lemma {:induction false} FailuresOnlyDelay<H>(attempts: seq<OpenResult<H>>, k: nat)
    requires k <= |attempts|
    requires forall j :: 0 <= j < k ==> attempts[j].Unavailable?
    ensures FirstOpened(attempts) ==
      match FirstOpened(attempts[k..])
      case StillWaiting => StillWaiting
      case Ready(h, n) => Ready(h, n + k)
  {
    if k > 0 {
      FailuresOnlyDelay(attempts[1..], k - 1);
      assert attempts[1..][k - 1..] == attempts[k..];
    }
  }

  /** Some attempt in the sequence opens the segment. */
  predicate SomeOpenSucceeds<H>(attempts: seq<OpenResult<H>>)
  {
    exists j :: 0 <= j < |attempts| && attempts[j].Opened?
  }

  /** How start-up stands: still waiting for a segment, or both handles held. */
  datatype StartupOutcome<F, I> = Waiting | Started(flight: F, intellivibe: I)

  /** `main` waits for the flight-data segment and only then for the
      intellivibe segment; the main loop starts once both are open. */
  method Startup<F, I>(flightAttempts: seq<OpenResult<F>>, intellivibeAttempts: seq<OpenResult<I>>)
    returns (outcome: StartupOutcome<F, I>)
    ensures outcome.Started? <==>
      SomeOpenSucceeds(flightAttempts) && SomeOpenSucceeds(intellivibeAttempts)
    ensures outcome.Started? ==>
      FirstOpened(flightAttempts).handle == outcome.flight &&
      FirstOpened(intellivibeAttempts).handle == outcome.intellivibe
  {
    var flight := WaitForOpen(flightAttempts);
    if flight.StillWaiting? {
      return Waiting;
    }
    var intellivibe := WaitForOpen(intellivibeAttempts);
    if intellivibe.StillWaiting? {
      return Waiting;
    }
    return Started(flight.handle, intellivibe.handle);
  }
}
