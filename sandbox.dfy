/** The sandbox simulator: a linear wizard of four fixed mission steps with a
    console log. "Execute Step" logs the current step's canned message, marks
    the step completed and moves to the next step, stopping at the last one;
    "Reset Simulation" restores the initial state. */
module Sandbox {

  datatype Step = Step(title: string, description: string, completed: bool)

  /** The component's three pieces of state taken together. */
  datatype Snapshot = Snapshot(activeStep: int, consoleOutput: seq<string>, steps: seq<Step>)

  const StartupLines: seq<string> :=
    ["Sandbox initialized", "Connected to Arbitrum Sepolia testnet"]

  const MissionSteps: seq<Step> := [
    Step("Connect Wallet", "Simulate a Web3 wallet connection", false),
    Step("Deploy Contract", "Deploy a smart contract to testnet", false),
    Step("Execute Transaction", "Send a test transaction", false),
    Step("Verify Results", "Check transaction status", false)
  ]

  /** The console message logged by the action at each step. */
  const Messages: seq<string> := [
    "Connecting wallet...\nWallet connected: 0x742d...35A3",
    "Deploying contract...\nContract deployed: 0x1234...5678\nGas used: 250,000",
    "Sending transaction...\nTx hash: 0xabcd...ef12\nStatus: Confirmed \U{2713}",
    "Verifying on block explorer...\n\U{2713} Transaction successful\n\U{2713} Contract verified"
  ]

  /** The index of the terminal step. */
  const LastStep: int := |MissionSteps| - 1

  function Min(a: int, b: int): int {
    if a <= b then a else b
  }

  /** The states the component can reach: the four fixed steps, of which only
      the completed flags vary, and an active index in bounds, so that
      `steps[activeStep]` and `messages[activeStep]` are always defined. */
  predicate WellFormed(s: Snapshot) {
    |s.steps| == |MissionSteps| && 0 <= s.activeStep < |s.steps|
    && forall i :: 0 <= i < |s.steps| ==>
         s.steps[i].title == MissionSteps[i].title
         && s.steps[i].description == MissionSteps[i].description
  }

  /** The state on mount: well formed, so every later action is defined. */
  function Initial(): (s: Snapshot)
    ensures WellFormed(s)
  {
    Snapshot(0, StartupLines, MissionSteps)
  }

  /** handleAction: log the current step's message, mark that step completed
      and advance the index unless it is already at the last step. */
  function Action(s: Snapshot): (r: Snapshot)
    requires WellFormed(s)
    ensures WellFormed(r)
  {
    Snapshot(
      if s.activeStep < |s.steps| - 1 then s.activeStep + 1 else s.activeStep,
      s.consoleOutput + [Messages[s.activeStep]],
      s.steps[s.activeStep := s.steps[s.activeStep].(completed := true)])
  }

  /** The state after `k` actions from the initial state. */
  function Run(k: nat): (s: Snapshot)
    ensures WellFormed(s)
  {
    if k == 0 then Initial() else Action(Run(k - 1))
  }

  /** The lines the first `k` actions log, in order. */
  function Replayed(k: nat): (lines: seq<string>)
    ensures |lines| == k
  {
    seq(k, j requires 0 <= j => Messages[Min(j, LastStep)])
  }

  /** The number of completed steps (`steps.filter(s => s.completed).length`). */
  function CountCompleted(steps: seq<Step>): (n: nat)
    ensures n <= |steps|
  {
    if steps == [] then 0
    else CountCompleted(steps[..|steps| - 1]) + (if steps[|steps| - 1].completed then 1 else 0)
  }

  predicate AllCompleted(steps: seq<Step>) {
    forall i :: 0 <= i < |steps| ==> steps[i].completed
  }

  /** The disabled attribute of the Execute Step button, as written. */
  predicate ExecuteDisabledAsWritten(s: Snapshot)
    requires |s.steps| > 0
  {
    s.activeStep >= |s.steps| && s.steps[|s.steps| - 1].completed
  }

  /** The disabled attribute the guard evidently means: the run is at the last
      step and that step is completed. */
  predicate ExecuteDisabled(s: Snapshot)
    requires |s.steps| > 0
  {
    s.activeStep >= |s.steps| - 1 && s.steps[|s.steps| - 1].completed
  }

  /** A press of Execute Step: the handler runs unless the button is disabled. */
  function Press(s: Snapshot): (r: Snapshot)
    requires WellFormed(s)
    ensures WellFormed(r)
  {
    if ExecuteDisabled(s) then s else Action(s)
  }

  /** The state after `k` presses from the initial state. */
  function PressRun(k: nat): (s: Snapshot)
    ensures WellFormed(s)
  {
    if k == 0 then Initial() else Press(PressRun(k - 1))
  }

  // ---------------------------------------------------------------------
  // Properties of the value-level model

  lemma InitialState()
    ensures Initial().activeStep == 0 && Initial().consoleOutput == StartupLines
    ensures forall i :: 0 <= i < |Initial().steps| ==> !Initial().steps[i].completed
    ensures CountCompleted(Initial().steps) == 0
  {
    CountCompletedPrefix(MissionSteps, 0);
  }

  /** Each action appends exactly its step's message and keeps the earlier
      lines, completes the active step without touching the others' text or
      clearing any flag, and keeps the index in bounds. */
  lemma {:induction false} ActionEffect(s: Snapshot)
    requires WellFormed(s)
    ensures |Action(s).consoleOutput| == |s.consoleOutput| + 1
    ensures Action(s).consoleOutput[..|s.consoleOutput|] == s.consoleOutput
    ensures Action(s).consoleOutput[|s.consoleOutput|] == Messages[s.activeStep]
    ensures Action(s).steps[s.activeStep].completed
    ensures forall i :: 0 <= i < |s.steps| && i != s.activeStep ==> Action(s).steps[i] == s.steps[i]
    ensures forall i :: 0 <= i < |s.steps| && s.steps[i].completed ==> Action(s).steps[i].completed
    ensures 0 <= Action(s).activeStep <= LastStep
    ensures Action(s).activeStep == s.activeStep + 1 <==> s.activeStep < LastStep
  {
    assert (s.consoleOutput + [Messages[s.activeStep]])[..|s.consoleOutput|] == s.consoleOutput;
  }

  /** At the terminal step the index stays put and the last step stays
      completed, yet every further action logs the last message once more. */
  lemma TerminalAction(s: Snapshot)
    requires WellFormed(s) && s.activeStep == LastStep
    ensures Action(s).activeStep == LastStep
    ensures Action(s).steps[LastStep].completed
    ensures Action(s).consoleOutput == s.consoleOutput + [Messages[LastStep]]
  {
  }

  /** Closed form after `k` actions: the index is min(k, 3), exactly the steps
      before min(k, 4) are completed, and the console holds the two startup
      lines followed by one message per action. */
  lemma {:induction false} AfterActions(k: nat)
    ensures Run(k).activeStep == Min(k, LastStep)
    ensures forall i :: 0 <= i < |MissionSteps| ==> (Run(k).steps[i].completed <==> i < Min(k, |MissionSteps|))
    ensures Run(k).consoleOutput == StartupLines + Replayed(k)
    ensures |Run(k).consoleOutput| == 2 + k
  {
    if k == 0 {
      assert Replayed(0) == [];
    } else {
      AfterActions(k - 1);
      var p := Run(k - 1);
      assert Replayed(k) == Replayed(k - 1) + [Messages[p.activeStep]];
    }
  }

  lemma {:induction false} CountCompletedPrefix(steps: seq<Step>, m: nat)
    requires m <= |steps|
    requires forall i :: 0 <= i < |steps| ==> (steps[i].completed <==> i < m)
    ensures CountCompleted(steps) == m
  {
    if steps != [] {
      var front := steps[..|steps| - 1];
      CountCompletedPrefix(front, Min(m, |front|));
    }
  }

  /** The completed count (the numerator of the progress bar) after `k`
      actions is min(k, 4): it never exceeds the number of steps. */
  lemma CompletedAfterActions(k: nat)
    ensures CountCompleted(Run(k).steps) == Min(k, |MissionSteps|)
  {
    AfterActions(k);
    CountCompletedPrefix(Run(k).steps, Min(k, |MissionSteps|));
  }

  /** Once all four actions have run, every step is completed and the index is
      at the terminal step, whatever further actions follow. */
  lemma AllCompletedAfterFour(k: nat)
    requires k >= |MissionSteps|
    ensures AllCompleted(Run(k).steps) && Run(k).activeStep == LastStep
  {
    AfterActions(k);
  }

  /** The guard as written can never hold in a reachable state: the index is
      always below the number of steps. */
  lemma ExecuteNeverDisabledAsWritten(s: Snapshot)
    requires WellFormed(s)
    ensures !ExecuteDisabledAsWritten(s)
  {
  }

  /** The discrepancy: after the four actions every step is completed, yet the
      button as written stays enabled and a fifth action logs a seventh line. */
  lemma EnabledAfterCompletion()
    ensures AllCompleted(Run(4).steps)
    ensures !ExecuteDisabledAsWritten(Run(4))
    ensures |Run(5).consoleOutput| == 7
  {
    AfterActions(4);
    AfterActions(5);
  }

  /** With the intended guard the button is disabled exactly once the four
      steps have all been completed. */
  lemma {:induction false} DisabledIffFinished(k: nat)
    ensures ExecuteDisabled(Run(k)) <==> k >= |MissionSteps|
    ensures ExecuteDisabled(Run(k)) <==> AllCompleted(Run(k).steps)
  {
    AfterActions(k);
    if !AllCompleted(Run(k).steps) {
      assert !Run(k).steps[Min(k, |MissionSteps|)].completed;
    }
  }

  /** With the intended guard a run stops after its four actions: `k` presses
      leave the state of min(k, 4) actions, so the console never grows past
      the two startup lines and four messages. */
  lemma {:induction false} PressRunStops(k: nat)
    ensures PressRun(k) == Run(Min(k, |MissionSteps|))
    ensures |PressRun(k).consoleOutput| == 2 + Min(k, |MissionSteps|)
  {
    if k > 0 {
      PressRunStops(k - 1);
      DisabledIffFinished(Min(k - 1, |MissionSteps|));
    }
    AfterActions(Min(k, |MissionSteps|));
  }

  // ---------------------------------------------------------------------
  // The component, with its state updated in place

  class Simulator {
    var activeStep: int
    var consoleOutput: seq<string>
    var steps: array<Step>

    ghost function State(): Snapshot
      reads this, steps
    {
      Snapshot(activeStep, consoleOutput, steps[..])
    }

    ghost predicate Valid()
      reads this, steps
    {
      WellFormed(State())
    }

    /** Mounting the component: step 0, the two startup lines, no step completed. */
    constructor ()
      ensures Valid() && fresh(steps)
      ensures State() == Initial()
    {
      activeStep := 0;
      consoleOutput := StartupLines;
      var a := new Step[|MissionSteps|](i requires 0 <= i < |MissionSteps| => MissionSteps[i]);
      assert a[..] == MissionSteps;
      steps := a;
    }

    /** The step shown in the workspace; always in bounds. */
    function CurrentStep(): (st: Step)
      reads this, steps
      requires Valid()
      ensures st.title == MissionSteps[activeStep].title
      ensures st.description == MissionSteps[activeStep].description
    {
      steps[activeStep]
    }

    /** handleAction, in place on the step array. */
    method HandleAction()
      requires Valid()
      modifies this, steps
      ensures Valid() && steps == old(steps)
      ensures State() == Action(old(State()))
    {
      var messages := Messages;
      consoleOutput := consoleOutput + [messages[activeStep]];
      steps[activeStep] := steps[activeStep].(completed := true);
      if activeStep < steps.Length - 1 {
        activeStep := activeStep + 1;
      }
    }

    /** handleReset: whatever the prior state, back to the initial one, with a
      fresh step array whose flags are all cleared. */
    method HandleReset()
      modifies this
      ensures Valid() && fresh(steps)
      ensures State() == Initial()
    {
      activeStep := 0;
      steps := new Step[|MissionSteps|](i requires 0 <= i < |MissionSteps| => MissionSteps[i].(completed := false));
      consoleOutput := StartupLines;
      assert steps[..] == MissionSteps;
    }

    /** The Execute Step button's disabled attribute, with the intended guard. */
    function IsExecuteDisabled(): (b: bool)
      reads this, steps
      requires Valid()
      ensures b <==> ExecuteDisabled(State())
    {
      activeStep >= steps.Length - 1 && steps[steps.Length - 1].completed
    }

    /** A click on Execute Step: ignored while the button is disabled. */
    method PressExecute()
      requires Valid()
      modifies this, steps
      ensures Valid() && steps == old(steps)
      ensures State() == Press(old(State()))
    {
      if !IsExecuteDisabled() {
        HandleAction();
      }
    }

    /** The number of completed steps behind the progress bar. */
    method CompletedCount() returns (n: nat)
      requires Valid()
      ensures n == CountCompleted(steps[..]) && n <= steps.Length
    {
      n := 0;
      var i := 0;
      while i < steps.Length
        invariant 0 <= i <= steps.Length
        invariant n == CountCompleted(steps[..i])
      {
        assert steps[..i + 1][..i] == steps[..i];
        if steps[i].completed {
          n := n + 1;
        }
        i := i + 1;
      }
      assert steps[..i] == steps[..];
    }
  }
}
