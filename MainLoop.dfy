/** `main_loop`: every tick reads the session snapshot, stops at the first
    one whose `exit_game` is set, and otherwise sends the line chosen for that
    tick's flight and session snapshots. The snapshots the loop would read are
    given as a finite sequence of ticks; running out of ticks without an exit
    stands for a prefix of a run that has not ended. */
module MainLoop {
  import opened Snapshots
  import opened Transform
  import opened Acquisition

  /** What the loop reads on one tick. */
  datatype Tick = Tick(session: IntellivibeData, flight: FlightData)

  /** Where a run stands after the inputs seen so far: start-up still
      waiting for a segment, the loop stopped at an exit tick, or the loop
      still going. */
  datatype LoopOutcome = NotStarted | Exited(atTick: nat) | StillRunning

  /** Index of the first tick with `exit_game` set, or the number of ticks. */
  function FirstExit(ticks: seq<Tick>): (k: nat)
    ensures k <= |ticks|
    ensures forall j :: 0 <= j < k ==> !ticks[j].session.exitGame
    ensures k < |ticks| ==> ticks[k].session.exitGame
  {
    if ticks == [] || ticks[0].session.exitGame then 0 else 1 + FirstExit(ticks[1..])
  }

  /** Reference definition of the lines the loop sends, tick by tick. */
  function SentLines(render: real -> string, ticks: seq<Tick>): (lines: seq<string>)
  {
    if ticks == [] || ticks[0].session.exitGame then []
    else [ChooseLine(render, ticks[0].flight, ticks[0].session)] + SentLines(render, ticks[1..])
  }

  /** The loop: sends one line per tick until a tick says the game exited. */
  method RunMainLoop(render: real -> string, ticks: seq<Tick>)
    returns (sent: seq<string>, outcome: LoopOutcome)
    ensures sent == SentLines(render, ticks)
    ensures !outcome.NotStarted?
    ensures outcome.Exited? ==>
      outcome.atTick < |ticks| && ticks[outcome.atTick].session.exitGame &&
      forall j :: 0 <= j < outcome.atTick ==> !ticks[j].session.exitGame
    ensures outcome.StillRunning? <==> forall j :: 0 <= j < |ticks| ==> !ticks[j].session.exitGame
  {
    sent := [];
    var i := 0;
    while i < |ticks|
      invariant 0 <= i <= |ticks|
      invariant forall j :: 0 <= j < i ==> !ticks[j].session.exitGame
      invariant sent + SentLines(render, ticks[i..]) == SentLines(render, ticks)
    {
      var session := ticks[i].session;
      if session.exitGame {
        return sent, Exited(i);
      }
      sent := sent + [ChooseLine(render, ticks[i].flight, session)];
      assert ticks[i..][1..] == ticks[i + 1..];
      i := i + 1;
    }
    return sent, StillRunning;
  }

  /** One line per tick strictly before the first exit, each the line chosen
      for that tick's snapshots. */
  lemma {:induction false} SentLinesPerTick(render: real -> string, ticks: seq<Tick>)
    ensures |SentLines(render, ticks)| == FirstExit(ticks)
    ensures forall i :: 0 <= i < FirstExit(ticks) ==>
      SentLines(render, ticks)[i] == ChooseLine(render, ticks[i].flight, ticks[i].session)
  {
    if ticks != [] && !ticks[0].session.exitGame {
      SentLinesPerTick(render, ticks[1..]);
    }
  }

  /** Nothing is sent on or after an exit tick: whatever follows it, the
      lines are those of the ticks before it. */
  lemma {:induction false} NothingSentFromExitOn(render: real -> string, ticks: seq<Tick>, k: nat)
    requires k < |ticks| && ticks[k].session.exitGame
    ensures SentLines(render, ticks) == SentLines(render, ticks[..k])
  {
    if k > 0 && !ticks[0].session.exitGame {
      NothingSentFromExitOn(render, ticks[1..], k - 1);
      assert ticks[1..][..k - 1] == ticks[..k][1..];
    }
  }

  /** Without an exit the loop never stops: every tick sends a line, and a
      run extended by more ticks sends what it sent before and then more. */
  lemma {:induction false} NoExitKeepsSending(render: real -> string, ticks: seq<Tick>, more: seq<Tick>)
    requires forall j :: 0 <= j < |ticks| ==> !ticks[j].session.exitGame
    ensures |SentLines(render, ticks)| == |ticks|
    ensures SentLines(render, ticks + more) == SentLines(render, ticks) + SentLines(render, more)
  {
    if ticks != [] {
      NoExitKeepsSending(render, ticks[1..], more);
      assert (ticks + more)[1..] == ticks[1..] + more;
    } else {
      assert ticks + more == more;
    }
  }

  /** `main`: wait for both segments, then run the loop. Nothing is sent
      before both are open; once they are, the run is the loop's. */
  method Run<F, I>(render: real -> string, flightAttempts: seq<OpenResult<F>>,
                   intellivibeAttempts: seq<OpenResult<I>>, ticks: seq<Tick>)
    returns (sent: seq<string>, outcome: LoopOutcome)
    ensures !(SomeOpenSucceeds(flightAttempts) && SomeOpenSucceeds(intellivibeAttempts)) ==>
      sent == [] && outcome == NotStarted
    ensures SomeOpenSucceeds(flightAttempts) && SomeOpenSucceeds(intellivibeAttempts) ==>
      sent == SentLines(render, ticks) &&
      outcome == if FirstExit(ticks) < |ticks| then Exited(FirstExit(ticks)) else StillRunning
  {
    var started := Startup(flightAttempts, intellivibeAttempts);
    if started.Waiting? {
      return [], NotStarted;
    }
    sent, outcome := RunMainLoop(render, ticks);
  }
}
