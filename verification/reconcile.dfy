/** The body of the `while True` loop in `main`: resolve the node name, build
    the labels, patch the node when they differ from the last applied ones, and
    catch `KeyError` only. One call of `Daemon.Cycle` is one iteration without
    the hour-long sleep; `Step` is its specification on values. */
module Reconcile {
  import opened Outcomes
  import opened Aggregation
  import opened Patch

  /** The two variables the loop carries from one iteration to the next. */
  datatype State = State(oldLabels: Option<Labels>, nodeName: Option<string>)

  /** What one iteration observes: `NODE_NAME` in the environment, the outcomes of
      the labelling functions in list order, and how `patch_node` answers. */
  datatype CycleInput = CycleInput(env: Option<string>, outcomes: seq<DetectorOutcome>, response: PatchResponse)

  /** An iteration either reaches the sleep or an exception leaves `main`. */
  datatype CycleResult = Continue | Escaped(error: PyError)

  /** A `patch_node` call: the node name and the body. */
  datatype PatchRequest = PatchRequest(node: string, body: Json)

  datatype Transition = Transition(next: State, result: CycleResult, sent: Option<PatchRequest>)

  /** The loop's `except KeyError`: that class is swallowed, every other escapes. */
  function Handle(e: PyError): (r: CycleResult)
    ensures r == Continue <==> e == KeyError
    ensures r.Escaped? ==> r.error == e
  {
    if e == KeyError then Continue else Escaped(e)
  }

  /** One iteration, on values. */
  function Step(s: State, input: CycleInput): (t: Transition)
    // NODE_NAME missing: nothing runs, nothing is sent, nothing changes
    ensures s.nodeName.None? && input.env.None? ==> t == Transition(s, Continue, None)
    // the name is read from the environment only while it is unknown
    ensures t.next.nodeName == if s.nodeName.Some? then s.nodeName else input.env
    // a patch goes out only for labels that differ from the last applied ones
    ensures t.sent.Some? ==>
      t.next.nodeName == Some(t.sent.value.node) &&
      Aggregate(input.outcomes).Built? &&
      t.sent.value.body == PatchBody(Aggregate(input.outcomes).labels) &&
      s.oldLabels != Some(Aggregate(input.outcomes).labels)
    // the remembered labels change only to what a successful patch sent
    ensures t.next.oldLabels != s.oldLabels ==>
      t.sent.Some? && input.response.Accepted? && t.result == Continue &&
      t.next.oldLabels == Some(Aggregate(input.outcomes).labels)
    // an exception leaves the loop only if it is not a KeyError
    ensures t.result.Escaped? ==> t.result.error != KeyError
    // an exception from a labelling function: nothing is sent, the remembered
    // labels stay, and it escapes unless it is a KeyError
    ensures (s.nodeName.Some? || input.env.Some?) && Aggregate(input.outcomes).Raised? ==>
      t.sent.None? && t.next.oldLabels == s.oldLabels &&
      t.result == Handle(Aggregate(input.outcomes).error)
  {
    var node := if s.nodeName.Some? then s.nodeName else input.env;
    match node
    case None => Transition(s, Continue, None)
    case Some(name) =>
      var resolved := s.(nodeName := node);
      match Aggregate(input.outcomes)
      case Raised(e) => Transition(resolved, Handle(e), None)
      case Built(labels) =>
        if Some(labels) == s.oldLabels then Transition(resolved, Continue, None)
        else
          var request := Some(PatchRequest(name, PatchBody(labels)));
          match SetLabelsRaises(input.response)
          case None => Transition(resolved.(oldLabels := Some(labels)), Continue, request)
          case Some(e) => Transition(resolved, Handle(e), request)
  }

  /** With the node name known and no labelling function raising, a cycle whose
      labels differ from the remembered ones (always so on the first cycle, where
      nothing is remembered) sends exactly one patch with those labels; it
      remembers them exactly when the patch is accepted. */
  lemma ChangedLabelsArePatched(s: State, input: CycleInput, labels: Labels)
    requires s.nodeName.Some? || input.env.Some?
    requires Aggregate(input.outcomes) == Built(labels)
    requires s.oldLabels != Some(labels)
    ensures Step(s, input).sent.Some? && LabelsOf(Step(s, input).sent.value.body) == Some(labels)
    ensures Step(s, input).next.oldLabels == (if input.response.Accepted? then Some(labels) else s.oldLabels)
    ensures input.response.Rejected? ==> Step(s, input).result == Handle(SetLabelsRaises(input.response).value)
  {
    PatchBodyRoundTrip(labels);
  }

  /** Labels equal to the remembered ones: no patch, nothing changes but the node name. */
  lemma UnchangedLabelsAreNotPatched(s: State, input: CycleInput)
    requires Aggregate(input.outcomes).Built? && s.oldLabels == Some(Aggregate(input.outcomes).labels)
    ensures Step(s, input).sent.None? && Step(s, input).result == Continue
    ensures Step(s, input).next.oldLabels == s.oldLabels
  {
  }

  /** Iterations run in order until one lets an exception escape `main`. */
  datatype Run = Run(final: State, result: CycleResult, patches: seq<PatchRequest>, cycles: nat)

  function SentList(sent: Option<PatchRequest>): seq<PatchRequest>
  {
    if sent.Some? then [sent.value] else []
  }

  /** `r` preceded by `cycles` iterations that sent `patches`. */
  function After(patches: seq<PatchRequest>, cycles: nat, r: Run): Run
  {
    Run(r.final, r.result, patches + r.patches, cycles + r.cycles)
  }

  /** The loop over a finite list of iterations. Every input is used, unless an
      exception escaped in the last iteration run; the run ends escaped only by an
      exception that is not a `KeyError`, and each iteration sends at most one patch. */
  function RunCycles(s: State, inputs: seq<CycleInput>): (r: Run)
    ensures r.cycles <= |inputs|
    ensures r.result == Continue ==> r.cycles == |inputs|
    ensures r.result.Escaped? ==> r.result.error != KeyError
    ensures |r.patches| <= r.cycles
    decreases |inputs|
  {
    if inputs == [] then Run(s, Continue, [], 0)
    else
      var t := Step(s, inputs[0]);
      if t.result.Escaped? then Run(t.next, t.result, SentList(t.sent), 1)
      else After(SentList(t.sent), 1, RunCycles(t.next, inputs[1..]))
  }

  /** A run ends escaped only because its last iteration raised: a labelling
      function's exception or the one `set_labels` raised. When no labelling
      function raises and every patch is accepted or fails with a `KeyError`, the
      loop never stops. */
  lemma {:induction false} RunEscapesOnlyFromAnIteration(s: State, inputs: seq<CycleInput>)
    ensures RunCycles(s, inputs).result.Escaped? ==>
      1 <= RunCycles(s, inputs).cycles &&
      (Aggregate(inputs[RunCycles(s, inputs).cycles - 1].outcomes) == Raised(RunCycles(s, inputs).result.error) ||
       SetLabelsRaises(inputs[RunCycles(s, inputs).cycles - 1].response) == Some(RunCycles(s, inputs).result.error))
    ensures (forall i :: 0 <= i < |inputs| ==>
      Aggregate(inputs[i].outcomes).Built? && SetLabelsRaises(inputs[i].response) in {None, Some(KeyError)}) ==>
      RunCycles(s, inputs).result == Continue
    decreases |inputs|
  {
    if inputs != [] {
      var t := Step(s, inputs[0]);
      if !t.result.Escaped? {
        RunEscapesOnlyFromAnIteration(t.next, inputs[1..]);
        var r := RunCycles(t.next, inputs[1..]);
        if r.result.Escaped? {
          assert inputs[1..][r.cycles - 1] == inputs[r.cycles];
        }
      }
    }
  }

  /** Once resolved, the node name is never read again and never changes. */
  lemma {:induction false} NodeNameIsStable(s: State, inputs: seq<CycleInput>)
    requires s.nodeName.Some?
    ensures RunCycles(s, inputs).final.nodeName == s.nodeName
    ensures forall i :: 0 <= i < |RunCycles(s, inputs).patches| ==>
      RunCycles(s, inputs).patches[i].node == s.nodeName.value
    decreases |inputs|
  {
    if inputs != [] {
      var t := Step(s, inputs[0]);
      if !t.result.Escaped? {
        NodeNameIsStable(t.next, inputs[1..]);
      }
    }
  }

  /** While `NODE_NAME` stays missing, every iteration is skipped and retried:
      no patch, no change of state, and the loop keeps going. */
  lemma {:induction false} MissingNodeNameRetries(s: State, inputs: seq<CycleInput>)
    requires s.nodeName.None?
    requires forall i :: 0 <= i < |inputs| ==> inputs[i].env.None?
    ensures RunCycles(s, inputs) == Run(s, Continue, [], |inputs|)
    decreases |inputs|
  {
    if inputs != [] {
      MissingNodeNameRetries(s, inputs[1..]);
    }
  }

  /** Idempotence: iterations that all compute the same labels send at most one
      patch, unless a rejection without a message is swallowed (then the patch is
      retried, see FailedPatchIsRetried): none when those labels are already the
      remembered ones, and exactly one from the first iteration when the node name
      is known and something else is remembered. A patch that is accepted keeps the
      loop going; one that is rejected otherwise ends the run. */
  lemma {:induction false} SteadyLabelsPatchAtMostOnce(s: State, inputs: seq<CycleInput>, labels: Labels)
    requires forall i :: 0 <= i < |inputs| ==>
      Aggregate(inputs[i].outcomes) == Built(labels) && inputs[i].response != Rejected(WithoutMessage)
    ensures |RunCycles(s, inputs).patches| <= 1
    ensures s.oldLabels == Some(labels) ==> RunCycles(s, inputs).patches == []
    ensures s.oldLabels != Some(labels) && s.nodeName.Some? && inputs != [] ==>
      |RunCycles(s, inputs).patches| == 1
    ensures (forall i :: 0 <= i < |inputs| ==> inputs[i].response.Accepted?) ==>
      RunCycles(s, inputs).result == Continue
    decreases |inputs|
  {
    if inputs != [] {
      var t := Step(s, inputs[0]);
      SteadyLabelsPatchAtMostOnce(t.next, inputs[1..], labels);
      if t.sent.Some? && t.result == Continue {
        assert t.next.oldLabels == Some(labels);
      } else if t.sent.None? && t.next.oldLabels != Some(labels) {
        assert t.next == s;
      }
    }
  }

  /** A failed patch leaves the remembered labels as they were, so the next
      iteration with the same labels patches again. */
  lemma FailedPatchIsRetried(s: State, first: CycleInput, second: CycleInput, labels: Labels)
    requires s.nodeName.Some? && s.oldLabels != Some(labels)
    requires Aggregate(first.outcomes) == Built(labels) && Aggregate(second.outcomes) == Built(labels)
    requires first.response == Rejected(WithoutMessage)
    ensures Step(s, first).result == Continue && Step(s, first).next == s
    ensures Step(Step(s, first).next, second).sent.Some?
  {
  }

  /** The daemon's loop state, updated in place by each iteration. */
  class Daemon {
    var oldLabels: Option<Labels>
    var nodeName: Option<string>

    function Snapshot(): State
      reads this
    {
      State(oldLabels, nodeName)
    }

    /** `node_name = args.node_name` and `old_labels = None` before the loop. */
    constructor (nodeArg: Option<string>)
      ensures Snapshot() == State(None, nodeArg)
    {
      oldLabels := None;
      nodeName := nodeArg;
    }

    /** One iteration of the loop, without the sleep. `sent` is the `patch_node`
        call it made, if any. */
    method Cycle(env: Option<string>, outcomes: seq<DetectorOutcome>, response: PatchResponse)
      returns (result: CycleResult, sent: Option<PatchRequest>)
      modifies this
      ensures Transition(Snapshot(), result, sent) == Step(old(Snapshot()), CycleInput(env, outcomes, response))
    {
      if nodeName.None? {
        if env.None? {
          // os.environ['NODE_NAME'] raises KeyError, caught by the loop
          return Continue, None;
        }
        nodeName := env;
      }
      var built := BuildLabels(outcomes);
      match built {
        case Raised(e) =>
          result, sent := Handle(e), None;
        case Built(labels) =>
          if Some(labels) != oldLabels {
            sent := Some(PatchRequest(nodeName.value, PatchBody(labels)));
            var raised := SetLabelsRaises(response);
            if raised.None? {
              oldLabels := Some(labels);
              result := Continue;
            } else {
              result := Handle(raised.value);
            }
          } else {
            result, sent := Continue, None;
          }
      }
    }

    /** The `while True` loop over a finite list of iterations: it stops early
        when an exception escapes. */
    method RunFor(inputs: seq<CycleInput>) returns (result: CycleResult, patches: seq<PatchRequest>, cycles: nat)
      modifies this
      ensures Run(Snapshot(), result, patches, cycles) == RunCycles(old(Snapshot()), inputs)
    {
      result, patches, cycles := Continue, [], 0;
      while cycles < |inputs|
        invariant cycles <= |inputs|
        invariant RunCycles(old(Snapshot()), inputs) == After(patches, cycles, RunCycles(Snapshot(), inputs[cycles..]))
      {
        var input := inputs[cycles];
        ghost var before := Snapshot();
        var r, sent := Cycle(input.env, input.outcomes, input.response);
        assert inputs[cycles..][1..] == inputs[cycles + 1..];
        patches, cycles := patches + SentList(sent), cycles + 1;
        if r.Escaped? {
          assert RunCycles(before, inputs[cycles - 1..]) == Run(Snapshot(), r, SentList(sent), 1);
          return r, patches, cycles;
        }
      }
      assert inputs[cycles..] == [];
    }
  }
}
