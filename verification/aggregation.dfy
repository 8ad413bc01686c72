/** The label fold of the main loop: `labels = {}`, then for each labelling
    function in order, `labels[key] = value` unless it returned `None`. An
    exception from a labelling function ends the fold. */
module Aggregation {
  import opened Outcomes

  /** The fold's end: the finished dict, or the exception that stopped it. */
  datatype Fold = Built(labels: Labels) | Raised(error: PyError)

  /** The fold, written left to right over the outcomes of the labelling functions.
      Nothing comes from nowhere: an exception is one a labelling function raised,
      and every key was returned by some labelling function. */
  function Aggregate(outs: seq<DetectorOutcome>): (r: Fold)
    ensures r.Raised? ==> exists i :: 0 <= i < |outs| && outs[i] == Raise(r.error)
    ensures r.Built? ==> forall k :: k in r.labels ==> exists i :: 0 <= i < |outs| && WritesKey(outs[i], k)
  {
    if outs == [] then Built(map[])
    else
      match Aggregate(outs[..|outs| - 1])
      case Raised(e) => Raised(e)
      case Built(labels) =>
        match outs[|outs| - 1]
        case Abstain => Built(labels)
        case Label(key, value) => Built(labels[key := value])
        case Raise(e) => Raised(e)
  }

  /** Outcome `o` writes `key` into the dict (a tuple, whatever its value). */
  predicate WritesKey(o: DetectorOutcome, key: string)
  {
    o.Label? && o.key == key
  }

  /** Outcome `i` is the last one that writes `key`. */
  ghost predicate LastWriter(outs: seq<DetectorOutcome>, i: nat, key: string)
  {
    i < |outs| && WritesKey(outs[i], key) && forall j :: i < j < |outs| ==> !WritesKey(outs[j], key)
  }

  ghost predicate RaiseFree(outs: seq<DetectorOutcome>)
  {
    forall i :: 0 <= i < |outs| ==> !outs[i].Raise?
  }

  /** The fold stops at the first exception and propagates exactly that one. */
  lemma {:induction false} AggregateRaisesFirstError(outs: seq<DetectorOutcome>)
    ensures Aggregate(outs).Raised? <==> !RaiseFree(outs)
    ensures Aggregate(outs).Raised? ==>
      exists i :: 0 <= i < |outs| && outs[i] == Raise(Aggregate(outs).error) && RaiseFree(outs[..i])
  {
    if outs != [] {
      var init := outs[..|outs| - 1];
      AggregateRaisesFirstError(init);
      if Aggregate(init).Raised? {
        var i :| 0 <= i < |init| && init[i] == Raise(Aggregate(init).error) && RaiseFree(init[..i]);
        assert outs[i] == init[i] && outs[..i] == init[..i];
      } else {
        assert outs[..|outs| - 1] == init;
      }
    }
  }

  /** Without an exception, a key is in the dict exactly when some labelling
      function returned a tuple with that key, and its value is the one of the
      LAST such tuple, `None` included. Abstaining functions contribute nothing. */
  lemma {:induction false} AggregateLastWriterWins(outs: seq<DetectorOutcome>, key: string)
    requires Aggregate(outs).Built?
    ensures key in Aggregate(outs).labels <==> exists i :: 0 <= i < |outs| && WritesKey(outs[i], key)
    ensures forall i: nat :: LastWriter(outs, i, key) ==> Aggregate(outs).labels[key] == outs[i].value
  {
    if outs != [] {
      var init := outs[..|outs| - 1];
      var last := outs[|outs| - 1];
      var before := Aggregate(init).labels;
      AggregateLastWriterWins(init, key);
      assert forall i :: 0 <= i < |init| ==> init[i] == outs[i];
      if WritesKey(last, key) {
        assert Aggregate(outs).labels == before[key := last.value];
        assert WritesKey(outs[|outs| - 1], key);
        forall i: nat | LastWriter(outs, i, key) ensures i == |outs| - 1 { }
      } else {
        assert key in Aggregate(outs).labels <==> key in before;
        assert key in before ==> Aggregate(outs).labels[key] == before[key];
        forall i: nat | LastWriter(outs, i, key) ensures LastWriter(init, i, key) { }
      }
    }
  }

  /** A tuple whose value is `None` is stored, not dropped: its key maps to `None`
      unless a later labelling function writes the same key. */
  lemma NoneValueIsStored(outs: seq<DetectorOutcome>, i: nat, key: string)
    requires Aggregate(outs).Built?
    requires i < |outs| && outs[i] == Label(key, None)
    requires forall j :: i < j < |outs| ==> !WritesKey(outs[j], key)
    ensures key in Aggregate(outs).labels && Aggregate(outs).labels[key] == None
  {
    assert LastWriter(outs, i, key);
    AggregateLastWriterWins(outs, key);
  }

  /** Once an exception has stopped the fold of a prefix, the whole fold ends with it. */
  lemma {:induction false} RaisedPrefixRaisesAll(outs: seq<DetectorOutcome>, i: nat)
    requires i <= |outs| && Aggregate(outs[..i]).Raised?
    ensures Aggregate(outs) == Aggregate(outs[..i])
    decreases |outs| - i
  {
    if i < |outs| {
      assert outs[..i + 1][..i] == outs[..i];
      RaisedPrefixRaisesAll(outs, i + 1);
    } else {
      assert outs[..i] == outs;
    }
  }

  /** The `for fn in labelling_functions` loop, filling the dict in place. */
  method BuildLabels(outs: seq<DetectorOutcome>) returns (r: Fold)
    ensures r == Aggregate(outs)
  {
    var labels: Labels := map[];
    var i := 0;
    while i < |outs|
      invariant 0 <= i <= |outs|
      invariant Aggregate(outs[..i]) == Built(labels)
    {
      assert outs[..i + 1][..i] == outs[..i];
      match outs[i] {
        case Abstain =>
        case Label(key, value) =>
          labels := labels[key := value];
        case Raise(e) =>
          RaisedPrefixRaisesAll(outs, i + 1);
          return Raised(e);
      }
      i := i + 1;
    }
    assert outs[..i] == outs;
    return Built(labels);
  }
}
