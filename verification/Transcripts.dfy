/** What is said to the exchange: the transcript of every instruction is the executor's run
    of its steps. */
module Transcripts {
  import Instructions
  import opened Executor
  import opened Pipeline
  import opened Conservation

  /** How far instruction k has come: its transcript is complete, unless the worker is
      still at it. */
  ghost predicate ScriptAt(s: State, k: nat)
    requires k < |s.started| == |s.transcripts|
  {
    if k == |s.started| - 1 && s.worker.Running? then
      s.worker.done <= |s.started[k].steps| && OnScript(s.started[k].steps, s.transcripts[k], s.worker.done)
    else WholeScript(s.started[k].steps, s.transcripts[k])
  }

  ghost predicate Scripted(s: State) {
    |s.started| == |s.transcripts| && forall k :: 0 <= k < |s.started| ==> ScriptAt(s, k)
  }

  lemma NothingSaid(steps: seq<Instructions.ExecutionStep>)
    ensures OnScript(steps, Transcript([], [], []), 0)
  {
    assert steps[0..] == steps;
  }

  lemma BeginKeepsScripted(s: State)
    requires Fifo(s) && Scripted(s) && s.worker == Resting && s.queue != [] && s.queue[0].delivery < |s.fates|
    ensures Scripted(Begin(s))
  {
    var s' := Begin(s);
    NothingSaid(s.queue[0].steps);
    forall k | 0 <= k < |s'.started| ensures ScriptAt(s', k) {
      if k < |s.started| { assert ScriptAt(s, k); }
    }
  }

  lemma ExecuteKeepsScripted(w: World, s: State, reply: Reply, s': State)
    requires Fifo(s) && Scripted(s) && WorkerStep(w, s, Execute(reply), s')
    ensures Scripted(s')
  {
    var last := |s.started| - 1;
    assert ScriptAt(s, last);
    WrittenIsOnScript(s.started[last].steps, Current(s), s.worker.done, reply);
    forall k | 0 <= k < |s'.started| ensures ScriptAt(s', k) {
      if k < last { assert ScriptAt(s, k); }
    }
  }

  ghost predicate SameScripts(s: State, s': State) {
    s'.started == s.started && s'.transcripts == s.transcripts
    && (s'.worker == s.worker || (!s.worker.Running? && !s'.worker.Running?))
  }

  lemma SameScriptsKeepScripted(s: State, s': State)
    requires Scripted(s) && SameScripts(s, s')
    ensures Scripted(s')
  {
    forall k | 0 <= k < |s'.started| ensures ScriptAt(s', k) { assert ScriptAt(s, k); }
  }

  lemma ReaderKeepsScripts(w: World, s: State, e: Event, s': State)
    requires ReaderStep(w, s, e, s')
    ensures SameScripts(s, s')
  {
    ReaderStepKinds(w, s, e, s');
  }

  lemma StepKeepsScripted(w: World, s: State, e: Event, s': State)
    requires Fifo(s) && Scripted(s) && Step(w, s, e, s')
    ensures Scripted(s')
  {
    match e
    case Take => BeginKeepsScripted(s);
    case Execute(reply) => ExecuteKeepsScripted(w, s, reply, s');
    case Tick(_) | Arrive(_) | TripCallback | ServerPause(_) | Stop => SameScriptsKeepScripted(s, s');
    case _ => ReaderKeepsScripts(w, s, e, s'); SameScriptsKeepScripted(s, s');
  }
}
