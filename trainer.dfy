/**
 * The training bookkeeping around the neural network (js/core/trainer.js): the label
 * codec, the flattening of the sample store into parallel feature and label lists,
 * the training flags, and the arg-max decoding of a prediction. The network itself
 * (building, fitting, evaluating) is an oracle: its outcomes arrive as parameters.
 */
module Trainer {
  import opened Wrappers
  import opened JsObject
  import opened Dataset

  /** What the model keeps of a built network: its input width and number of classes. */
  datatype Network = Network(inputSize: nat, numClasses: nat)

  /** The result of `prepareData`, with the tensors represented by the arrays they hold. */
  datatype Prepared = Prepared(features: seq<Vector>, labels: seq<nat>, numClasses: nat, inputSize: nat)

  /** How the synchronous part of `train` ended. */
  datatype TrainStart =
    | AlreadyTraining  // returned false at once: a training run is in flight
    | Failed           // data preparation threw: returned false
    | Fitting          // the network is built and `fit` is awaited

  /** The result of `predict`; `name` is `None` where the decoder has no entry (undefined). */
  datatype Prediction = Prediction(name: Option<string>, confidence: real, probabilities: seq<real>)

  /** The index and probability the arg-max loop settles on. */
  datatype Pick = Pick(index: nat, prob: real)

  /** The encoder `prepareData` writes: label at position i maps to i (a later repeat overwrites). */
  function Encode(keys: seq<string>): map<string, nat> {
    if keys == [] then map[]
    else Encode(keys[..|keys| - 1])[keys[|keys| - 1] := |keys| - 1]
  }

  /** The decoder `prepareData` writes: index i maps to the label at position i. */
  function Decode(keys: seq<string>): map<nat, string> {
    if keys == [] then map[]
    else Decode(keys[..|keys| - 1])[|keys| - 1 := keys[|keys| - 1]]
  }

  /** For distinct labels, the encoder maps exactly the labels, each to its position. */
  lemma {:induction false} EncodeFacts(keys: seq<string>)
    requires Distinct(keys)
    ensures forall l :: l in Encode(keys) <==> l in keys
    ensures forall i :: 0 <= i < |keys| ==> keys[i] in Encode(keys) && Encode(keys)[keys[i]] == i
  {
    if keys != [] {
      var n := |keys| - 1;
      EncodeFacts(keys[..n]);
      assert keys == keys[..n] + [keys[n]];
      assert forall i :: 0 <= i < n ==> keys[..n][i] == keys[i];
    }
  }

  /** The decoder maps exactly the positions below the label count, each to its label. */
  lemma {:induction false} DecodeFacts(keys: seq<string>)
    ensures forall i: nat :: i in Decode(keys) <==> i < |keys|
    ensures forall i :: 0 <= i < |keys| ==> Decode(keys)[i] == keys[i]
  {
    if keys != [] {
      var n := |keys| - 1;
      DecodeFacts(keys[..n]);
      assert forall i :: 0 <= i < n ==> keys[..n][i] == keys[i];
    }
  }

  /** For distinct labels the two tables are inverse: every code is below the label count and decodes to its label. */
  lemma CodecRoundTrip(keys: seq<string>)
    requires Distinct(keys)
    ensures forall l :: l in keys ==>
              l in Encode(keys) && Encode(keys)[l] < |keys| &&
              Encode(keys)[l] in Decode(keys) && Decode(keys)[Encode(keys)[l]] == l
    ensures forall i :: 0 <= i < |keys| ==>
              i in Decode(keys) && Decode(keys)[i] in Encode(keys) && Encode(keys)[Decode(keys)[i]] == i
  {
    EncodeFacts(keys);
    DecodeFacts(keys);
    forall l | l in keys
      ensures l in Encode(keys) && Encode(keys)[l] < |keys| && Encode(keys)[l] in Decode(keys) && Decode(keys)[Encode(keys)[l]] == l
    {
      var i :| 0 <= i < |keys| && keys[i] == l;
    }
  }

  lemma TablesStep(enc: map<string, nat>, dec: map<nat, string>, keys: seq<string>, i: nat)
    requires i < |keys|
    ensures (enc + Encode(keys[..i]))[keys[i] := i] == enc + Encode(keys[..i + 1])
    ensures (dec + Decode(keys[..i]))[i := keys[i]] == dec + Decode(keys[..i + 1])
  {
    assert keys[..i + 1][..i] == keys[..i];
  }

  /** A table entry for a label that is no longer a key survives re-encoding. */
  lemma StaleEntrySurvives(old_: map<string, nat>, keys: seq<string>, l: string)
    requires Distinct(keys) && l in old_ && l !in keys
    ensures l in old_ + Encode(keys) && (old_ + Encode(keys))[l] == old_[l]
  {
    EncodeFacts(keys);
  }

  /** The bucket of `name`, empty when absent. */
  function Bucket(b: Buckets, name: string): seq<Vector> {
    if name in b then b[name] else []
  }

  /** All samples, bucket after bucket in key order, each bucket in its own order. */
  function FlatFeatures(keys: seq<string>, b: Buckets): seq<Vector> {
    if keys == [] then []
    else FlatFeatures(keys[..|keys| - 1], b) + Bucket(b, keys[|keys| - 1])
  }

  /** The class index of each sample of `FlatFeatures`: the position of its bucket's key. */
  function FlatLabels(keys: seq<string>, b: Buckets): seq<nat> {
    if keys == [] then []
    else FlatLabels(keys[..|keys| - 1], b) + seq(Count(b, keys[|keys| - 1]), _ => |keys| - 1)
  }

  lemma FlatStep(keys: seq<string>, b: Buckets, i: nat)
    requires i < |keys|
    ensures FlatFeatures(keys[..i + 1], b) == FlatFeatures(keys[..i], b) + Bucket(b, keys[i])
    ensures FlatLabels(keys[..i + 1], b) == FlatLabels(keys[..i], b) + seq(Count(b, keys[i]), _ => i)
  {
    assert keys[..i + 1][..i] == keys[..i];
  }

  /** The two flattened lists have equal length, the total sample count, and every class index is below the label count. */
  lemma {:induction false} FlatShape(keys: seq<string>, b: Buckets)
    ensures |FlatFeatures(keys, b)| == SumCounts(keys, b)
    ensures |FlatLabels(keys, b)| == SumCounts(keys, b)
    ensures forall k :: 0 <= k < |FlatLabels(keys, b)| ==> FlatLabels(keys, b)[k] < |keys|
    decreases |keys|
  {
    if keys != [] {
      FlatShape(keys[..|keys| - 1], b);
    }
  }

  /**
   * Sample `o` of the bucket at key position `j` sits in the flattened lists right
   * after the samples of the keys before it, and is labelled `j`.
   */
  lemma {:induction false} FlatPosition(keys: seq<string>, b: Buckets, j: nat, o: nat)
    requires j < |keys| && o < Count(b, keys[j])
    ensures SumCounts(keys[..j], b) + o < |FlatFeatures(keys, b)| == |FlatLabels(keys, b)|
    ensures FlatFeatures(keys, b)[SumCounts(keys[..j], b) + o] == b[keys[j]][o]
    ensures FlatLabels(keys, b)[SumCounts(keys[..j], b) + o] == j
    decreases |keys|
  {
    var n := |keys| - 1;
    var pre := keys[..n];
    FlatShape(pre, b);
    FlatShape(keys, b);
    if j == n {
      assert keys[..j] == pre;
    } else {
      assert pre[..j] == keys[..j];
      assert pre[j] == keys[j];
      FlatPosition(pre, b, j, o);
      assert pre == pre[..j + 1] + pre[j + 1..];
      SumCountsAppend(pre[..j + 1], pre[j + 1..], b);
      assert pre[..j + 1][..j] == pre[..j];
    }
  }

  /** The arg-max of `predict`: the first strictly greatest entry, starting from index 0 with probability 0. */
  function ArgMaxOf(p: seq<real>): (r: Pick)
    ensures r.prob >= 0.0
    ensures forall k :: 0 <= k < |p| ==> p[k] <= r.prob
    ensures r.index < |p| || r.index == 0
    ensures r.prob > 0.0 ==> r.index < |p| && p[r.index] == r.prob
    ensures forall k :: 0 <= k < r.index ==> p[k] < r.prob
    ensures r.prob == 0.0 ==> r.index == 0
  {
    if p == [] then Pick(0, 0.0)
    else
      var best := ArgMaxOf(p[..|p| - 1]);
      assert forall k :: 0 <= k < |p| - 1 ==> p[..|p| - 1][k] == p[k];
      if p[|p| - 1] > best.prob then Pick(|p| - 1, p[|p| - 1]) else best
  }

  /** The arg-max loop of `predict`. */
  method ArgMax(p: seq<real>) returns (index: nat, maxProb: real)
    ensures Pick(index, maxProb) == ArgMaxOf(p)
  {
    maxProb := 0.0;
    index := 0;
    for i := 0 to |p|
      invariant Pick(index, maxProb) == ArgMaxOf(p[..i])
    {
      assert p[..i + 1][..i] == p[..i];
      if p[i] > maxProb {
        maxProb := p[i];
        index := i;
      }
    }
    assert p[..|p|] == p;
  }

  /**
   * After preparing distinct labels, a probability vector no longer than the label
   * list decodes to the label at the chosen index, whatever the tables held before.
   */
  lemma DecodesToKey(before: map<nat, string>, keys: seq<string>, p: seq<real>)
    requires 0 < |p| <= |keys|
    ensures ArgMaxOf(p).index < |keys|
    ensures ArgMaxOf(p).index in before + Decode(keys)
    ensures (before + Decode(keys))[ArgMaxOf(p).index] == keys[ArgMaxOf(p).index]
  {
    DecodeFacts(keys);
  }

  /**
   * The collection loops of `prepareData`: every sample of every label, in key
   * order, with the label's code beside it.
   */
  method CollectSamples(data: Store, encoder: map<string, nat>) returns (features: seq<Vector>, labels: seq<nat>)
    requires data.Valid()
    requires forall i :: 0 <= i < |data.keys| ==> data.keys[i] in encoder && encoder[data.keys[i]] == i
    ensures features == FlatFeatures(data.keys, data.buckets)
    ensures labels == FlatLabels(data.keys, data.buckets)
  {
    var keys := data.keys;
    features := [];
    labels := [];
    for i := 0 to |keys|
      invariant features == FlatFeatures(keys[..i], data.buckets)
      invariant labels == FlatLabels(keys[..i], data.buckets)
    {
      var samples := data.buckets[keys[i]];
      for o := 0 to |samples|
        invariant features == FlatFeatures(keys[..i], data.buckets) + samples[..o]
        invariant labels == FlatLabels(keys[..i], data.buckets) + seq(o, _ => i)
      {
        assert samples[..o + 1] == samples[..o] + [samples[o]];
        assert seq(o, _ => i) + [i] == seq(o + 1, _ => i);
        features := features + [samples[o]];
        labels := labels + [encoder[keys[i]]];
      }
      assert samples[..|samples|] == samples;
      FlatStep(keys, data.buckets, i);
    }
    assert keys[..|keys|] == keys;
  }

  /** The trainer: the current network, the label tables and the two flags. */
  class ModelTrainer {
    var model: Option<Network>
    var encoder: map<string, nat>
    var decoder: map<nat, string>
    var isTrained: bool
    var isTraining: bool
    /** The number of `fit` calls still awaited. */
    ghost var pendingFits: nat

    constructor ()
      ensures model == None && encoder == map[] && decoder == map[]
      ensures !isTrained && !isTraining && pendingFits == 0
    {
      model := None;
      encoder := map[];
      decoder := map[];
      isTrained := false;
      isTraining := false;
      pendingFits := 0;
    }

    /**
     * `prepareData`: the tables gain the codes of the current labels (older entries
     * stay), then the samples are flattened. Building the tensors fails when there is
     * no sample at all, or when the tensor library rejects the arrays (`tensorsOk`).
     */
    method PrepareData(data: Store, tensorsOk: bool) returns (prep: Option<Prepared>)
      requires data.Valid()
      modifies this
      ensures encoder == old(encoder) + Encode(data.keys)
      ensures decoder == old(decoder) + Decode(data.keys)
      ensures model == old(model) && isTrained == old(isTrained) && isTraining == old(isTraining)
      ensures pendingFits == old(pendingFits)
      ensures prep.Some? <==> tensorsOk && data.TotalSamples() > 0
      ensures prep.Some? ==> |FlatFeatures(data.keys, data.buckets)| > 0
      ensures prep.Some? ==>
                prep.value == Prepared(FlatFeatures(data.keys, data.buckets), FlatLabels(data.keys, data.buckets),
                                       |data.keys|, |FlatFeatures(data.keys, data.buckets)[0]|)
    {
      var keys := data.keys;
      for i := 0 to |keys|
        invariant encoder == old(encoder) + Encode(keys[..i])
        invariant decoder == old(decoder) + Decode(keys[..i])
        invariant model == old(model) && isTrained == old(isTrained) && isTraining == old(isTraining)
        invariant pendingFits == old(pendingFits)
      {
        TablesStep(old(encoder), old(decoder), keys, i);
        encoder := encoder[keys[i] := i];
        decoder := decoder[i := keys[i]];
      }
      assert keys[..|keys|] == keys;
      EncodeFacts(keys);
      var features, labels := CollectSamples(data, encoder);
      FlatShape(keys, data.buckets);
      if !tensorsOk || |features| == 0 {
        return None;
      }
      prep := Some(Prepared(features, labels, |keys|, |features[0]|));
    }

    /**
     * `train` up to its `await`: refused while a run is in flight; otherwise the run
     * is marked, the data prepared, and on success a fresh network replaces the
     * model (not yet fitted, `isTrained` keeps its value) and `fit` starts.
     */
    method Train(data: Store, tensorsOk: bool) returns (r: TrainStart)
      requires data.Valid()
      modifies this
      ensures old(isTraining) ==> r == AlreadyTraining
      ensures old(isTraining) ==> model == old(model) && encoder == old(encoder) && decoder == old(decoder)
      ensures old(isTraining) ==> isTrained == old(isTrained) && isTraining && pendingFits == old(pendingFits)
      ensures !old(isTraining) ==> encoder == old(encoder) + Encode(data.keys)
      ensures !old(isTraining) ==> decoder == old(decoder) + Decode(data.keys)
      ensures r == Fitting <==> !old(isTraining) && tensorsOk && data.TotalSamples() > 0
      ensures r == Failed <==> !old(isTraining) && !(tensorsOk && data.TotalSamples() > 0)
      ensures r == Failed ==> !isTraining && model == old(model)
      ensures r == Failed ==> isTrained == old(isTrained) && pendingFits == old(pendingFits)
      ensures r == Fitting ==> |FlatFeatures(data.keys, data.buckets)| > 0
      ensures r == Fitting ==> isTraining && isTrained == old(isTrained) && pendingFits == old(pendingFits) + 1
      ensures r == Fitting ==> model == Some(Network(|FlatFeatures(data.keys, data.buckets)[0]|, |data.keys|))
    {
      if isTraining {
        return AlreadyTraining;
      }
      isTraining := true;
      var prep := PrepareData(data, tensorsOk);
      if prep.None? {
        isTraining := false;
        return Failed;
      }
      model := Some(Network(prep.value.inputSize, prep.value.numClasses));
      pendingFits := pendingFits + 1;
      r := Fitting;
    }

    /**
     * The rest of `train` once `fit` settles: the flag is lowered on both paths, and
     * the model counts as trained only when the fit succeeded.
     */
    method FitSettled(ok: bool) returns (trained: bool)
      requires pendingFits > 0
      modifies this
      ensures trained == ok
      ensures !isTraining
      ensures isTrained == (ok || old(isTrained))
      ensures model == old(model) && encoder == old(encoder) && decoder == old(decoder)
      ensures pendingFits == old(pendingFits) - 1
    {
      if ok {
        isTrained := true;
      }
      isTraining := false;
      pendingFits := pendingFits - 1;
      trained := ok;
    }

    /**
     * `predict`, given the network's output (`None` when evaluation threw): nothing
     * without a trained model; otherwise the arg-max index, its probability and the
     * decoder's entry for it.
     */
    method Predict(probabilities: Option<seq<real>>) returns (r: Option<Prediction>)
      ensures !(isTrained && model.Some?) ==> r.None?
      ensures probabilities.None? ==> r.None?
      ensures isTrained && model.Some? && probabilities.Some? ==>
        var pick := ArgMaxOf(probabilities.value);
        r == Some(Prediction(if pick.index in decoder then Some(decoder[pick.index]) else None,
                             pick.prob, probabilities.value))
    {
      if !isTrained || model.None? {
        return None;
      }
      if probabilities.None? {
        return None;
      }
      var p := probabilities.value;
      var predictedIndex, maxProb := ArgMax(p);
      var name := if predictedIndex in decoder then Some(decoder[predictedIndex]) else None;
      r := Some(Prediction(name, maxProb, p));
    }

    /** `reset`: no model, empty tables, both flags down. */
    method Reset()
      modifies this
      ensures model == None && encoder == map[] && decoder == map[]
      ensures !isTrained && !isTraining
      ensures pendingFits == old(pendingFits)
    {
      model := None;
      encoder := map[];
      decoder := map[];
      isTrained := false;
      isTraining := false;
    }
  }
}
