/**
 Stopping one external process in stages (`stopInStages` in
 src/model/service/encode/EncodeProcessManageModel.ts), as the cleanup of an ended child
 uses it: waiting always succeeds and nothing but a check settles the outcome. The answers
 of the successive checks are given as a sequence; `None` is the source's `undefined`.
 */
module StagedStop {
  import opened Options

  const CHECKS_PER_SIGNAL: nat := 3

  datatype StopOutcome = StopOutcome(wasRunning: bool, exitConfirmed: bool)

  /** A check that was not answered is one that could not be made. */
  function Answer(answers: seq<Option<bool>>, k: nat): Option<bool> {
    if k < |answers| then answers[k] else None
  }

  /** Among the first checks one was answered with exactly `false`. */
  predicate SeenGone(answers: seq<Option<bool>>, upTo: nat) {
    exists k: nat :: k < upTo && Answer(answers, k) == Some(false)
  }

  function Outcome(answers: seq<Option<bool>>, signals: nat): StopOutcome {
    StopOutcome(Answer(answers, 0) != Some(false), SeenGone(answers, 1 + signals * CHECKS_PER_SIGNAL))
  }

  /** Sends the signals in turn and checks after each; `made` counts the checks. */
  method StopInStages(signals: nat, answers: seq<Option<bool>>) returns (outcome: StopOutcome, made: nat)
    ensures outcome == Outcome(answers, signals)
    ensures outcome.wasRunning <==> Answer(answers, 0) != Some(false)
    ensures outcome.exitConfirmed <==> SeenGone(answers, made)
    ensures !outcome.exitConfirmed ==> made == 1 + 3 * signals
    ensures 1 <= made <= 1 + signals * CHECKS_PER_SIGNAL
    ensures forall k: nat :: k + 1 < made ==> Answer(answers, k) != Some(false)
  {
    made := 1;
    if Answer(answers, 0) == Some(false) {
      return StopOutcome(false, true), made;
    }
    for signal := 0 to signals
      invariant made == 1 + signal * CHECKS_PER_SIGNAL
      invariant forall k: nat :: k < made ==> Answer(answers, k) != Some(false)
    {
      var gone;
      gone, made := PollUntilExit(answers, made);
      if gone {
        assert made <= 1 + (signal + 1) * CHECKS_PER_SIGNAL <= 1 + signals * CHECKS_PER_SIGNAL;
        return StopOutcome(true, true), made;
      }
    }
    return StopOutcome(true, false), made;
  }

  method PollUntilExit(answers: seq<Option<bool>>, from: nat) returns (gone: bool, made: nat)
    ensures from < made <= from + CHECKS_PER_SIGNAL
    ensures gone ==> Answer(answers, made - 1) == Some(false)
    ensures !gone ==> made == from + CHECKS_PER_SIGNAL
    ensures forall k: nat :: from <= k < (if gone then made - 1 else made) ==> Answer(answers, k) != Some(false)
  {
    made := from;
    for attempt := 0 to CHECKS_PER_SIGNAL
      invariant made == from + attempt
      invariant forall k: nat :: from <= k < made ==> Answer(answers, k) != Some(false)
    {
      made := made + 1;
      if Answer(answers, made - 1) == Some(false) { return true, made; }
    }
    return false, made;
  }
}
