/** A Run carries its team's phase as text; the schedule and the trigger read from it whether the Run has finished. */
module PhaseTexts {
  import opened TeamStatuses
  import opened Schedules

  function Text(p: Phase): string {
    match p
    case Unset => ""
    case Pending => "Pending"
    case Initializing => "Initializing"
    case Running => "Running"
    case Completed => "Completed"
    case Failed => "Failed"
    case TimedOut => "TimedOut"
    case BudgetExceeded => "BudgetExceeded"
    case OtherPhase(text) => text
  }

  /** A Run counts as finished exactly in the phases in which its team's reconciler has nothing left but to clean up. */
  lemma FinishedRunsAreTerminalTeams(p: Phase)
    requires !p.OtherPhase?
    ensures IsRunTerminal(Text(p)) <==> p in [Completed, Failed, TimedOut, BudgetExceeded]
    ensures IsRunTerminal(Text(p)) <==> Terminal(p)
  {
    assert "Pending"[0] == 'P' && "Initializing"[0] == 'I' && "Running"[0] == 'R';
    assert "Completed"[0] == 'C' && "Failed"[0] == 'F' && "TimedOut"[0] == 'T' && "BudgetExceeded"[0] == 'B';
  }
}
