/** The loop run over the daemon's own `labelling_functions`: what the four
    detectors, folded in list order, put into the dict and the patch. */
module Labelling {
  import opened Outcomes
  import opened Detectors
  import opened Aggregation
  import opened Reconcile

  /** Without an exception, the dict always holds the CUDA, GPU and storage keys,
      holds the locality key exactly when the node has no locality type yet, and
      holds nothing else. */
  lemma {:induction false} DetectedKeys(m: Machine)
    requires Aggregate(Detect(m)).Built?
    ensures Aggregate(Detect(m)).labels.Keys ==
      {CudaKey, GpuKey, StorageKey} + (if EdgeLabel(m.nodeLabels).Abstain? then {} else {LocalityKey})
  {
    var outs := Detect(m);
    var keys := Aggregate(outs).labels.Keys;
    AggregateRaisesFirstError(outs);
    assert !outs[0].Raise? && !outs[2].Raise? && !outs[3].Raise?;
    forall key ensures key in keys <==> exists i :: 0 <= i < |outs| && WritesKey(outs[i], key) {
      AggregateLastWriterWins(outs, key);
    }
    assert WritesKey(outs[0], CudaKey) && WritesKey(outs[1], GpuKey) && WritesKey(outs[3], StorageKey);
    assert !outs[2].Abstain? ==> WritesKey(outs[2], LocalityKey);
  }

  /** A locality type already on the node is never proposed again, so a patch
      does not touch it. */
  lemma LocalityIsNotOverridden(m: Machine, nodeLabels: map<string, string>)
    requires m.nodeLabels == Fetched(Some(nodeLabels)) && LocalityKey in nodeLabels
    requires Aggregate(Detect(m)).Built?
    ensures LocalityKey !in Aggregate(Detect(m)).labels
  {
    DetectedKeys(m);
    assert LocalityKey != CudaKey && LocalityKey != GpuKey && LocalityKey != StorageKey;
  }

  /** A missing version file stores the CUDA key with value `None`, which the
      patch body turns into a `null` that removes the label from the node. */
  lemma MissingVersionFileRemovesLabel(m: Machine)
    requires m.versionFile.Missing?
    requires Aggregate(Detect(m)).Built?
    ensures CudaKey in Aggregate(Detect(m)).labels && Aggregate(Detect(m)).labels[CudaKey] == None
  {
    var outs := Detect(m);
    DetectorKeysDistinct(m);
    forall j | 0 < j < |outs| ensures !WritesKey(outs[j], CudaKey) { }
    NoneValueIsStored(outs, 0, CudaKey);
  }

  /** A version file the pattern does not match raises `AttributeError` in the
      first detector: nothing is sent and the exception leaves the loop. */
  lemma MalformedVersionFileEscapes(s: State, env: Option<string>, m: Machine, response: Patch.PatchResponse)
    requires s.nodeName.Some? || env.Some?
    requires m.versionFile.Contents? && forall k: nat :: !CudaPattern.MatchWithGroup(m.versionFile.text, k)
    ensures Step(s, CycleInput(env, Detect(m), response)).result == Escaped(AttributeError)
    ensures Step(s, CycleInput(env, Detect(m), response)).sent.None?
    ensures Step(s, CycleInput(env, Detect(m), response)).next.oldLabels == s.oldLabels
  {
    var outs := Detect(m);
    assert outs[..1] == [Raise(AttributeError)];
    assert Aggregate(outs[..1]) == Raised(AttributeError);
    RaisedPrefixRaisesAll(outs, 1);
  }

  /** None of the four labelling functions raises a `KeyError`, so whichever of
      them raises first ends the loop with its exception (`OSError`,
      `AttributeError`, `ApiException` or `TypeError`); nothing is sent and
      the remembered labels stay. */
  lemma {:induction false} DetectorErrorEscapes(s: State, env: Option<string>, m: Machine, response: Patch.PatchResponse, i: nat)
    requires s.nodeName.Some? || env.Some?
    requires i < 4 && Detect(m)[i].Raise? && forall j :: 0 <= j < i ==> !Detect(m)[j].Raise?
    ensures Step(s, CycleInput(env, Detect(m), response)).result == Escaped(Detect(m)[i].error)
    ensures Step(s, CycleInput(env, Detect(m), response)).sent.None?
    ensures Step(s, CycleInput(env, Detect(m), response)).next.oldLabels == s.oldLabels
  {
    var outs := Detect(m);
    AggregateRaisesFirstError(outs);
    var j :| 0 <= j < |outs| && outs[j] == Raise(Aggregate(outs).error) && RaiseFree(outs[..j]);
  }
}
