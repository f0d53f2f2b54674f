/**
 * Duplicate reconciliation: a freshly computed prediction is compared with
 * the company's open predictions, in store order. The first open prediction
 * with the same direction and exactly the same predicted change decides: if
 * its certainty is the same the candidate is discarded, otherwise that row's
 * certainty is updated; without such a row the candidate is stored as new.
 */
module DuplicateReconciler {
  import opened Domain

  predicate IsOpen(p: Prediction) {
    p.correct.Null?
  }

  /** `p` is an open prediction of the candidate's company for the same forecast. */
  predicate IsOpenDuplicate(p: Prediction, candidate: Prediction) {
    && IsOpen(p)
    && p.company == candidate.company
    && p.direction == candidate.direction
    && p.predictedChange == candidate.predictedChange
  }

  datatype Decision =
    | Discard(index: nat)
    | UpdateCertainty(index: nat)
    | CreateNew

  /** The first open duplicate at or after position `from`. */
  function FirstOpenDuplicate(ps: seq<Prediction>, candidate: Prediction, from: nat): (r: Option<nat>)
    requires from <= |ps|
    ensures r.Some? ==> from <= r.value < |ps| && IsOpenDuplicate(ps[r.value], candidate)
    ensures r.Some? ==> forall j :: from <= j < r.value ==> !IsOpenDuplicate(ps[j], candidate)
    ensures r.Null? ==> forall j :: from <= j < |ps| ==> !IsOpenDuplicate(ps[j], candidate)
    decreases |ps| - from
  {
    if from == |ps| then Null
    else if IsOpenDuplicate(ps[from], candidate) then Some(from)
    else FirstOpenDuplicate(ps, candidate, from + 1)
  }

  /**
   * The reconciliation decision for `candidate` against the store `ps`: new
   * exactly when no open duplicate exists; otherwise it names the first open
   * duplicate and discards exactly when the certainties are equal.
   */
  function Reconcile(ps: seq<Prediction>, candidate: Prediction): (d: Decision)
    ensures d.CreateNew? <==> forall j :: 0 <= j < |ps| ==> !IsOpenDuplicate(ps[j], candidate)
    ensures !d.CreateNew? ==> d.index < |ps| && IsOpenDuplicate(ps[d.index], candidate)
    ensures !d.CreateNew? ==> forall j :: 0 <= j < d.index ==> !IsOpenDuplicate(ps[j], candidate)
    ensures !d.CreateNew? ==> (d.Discard? <==> ps[d.index].certainty == candidate.certainty)
  {
    match FirstOpenDuplicate(ps, candidate, 0)
    case Null => CreateNew
    case Some(k) => if ps[k].certainty == candidate.certainty then Discard(k) else UpdateCertainty(k)
  }

  /**
   * The store after the decision is carried out: nothing changes on a
   * discard, only the certainty of the named row changes on an update, and
   * the candidate is appended when it is new.
   */
  function Apply(ps: seq<Prediction>, candidate: Prediction, d: Decision): (r: seq<Prediction>)
    requires !d.CreateNew? ==> d.index < |ps|
    ensures d.Discard? ==> r == ps
    ensures d.UpdateCertainty? ==> |r| == |ps| && r[d.index] == ps[d.index].(certainty := candidate.certainty)
    ensures d.UpdateCertainty? ==> forall j :: 0 <= j < |ps| && j != d.index ==> r[j] == ps[j]
    ensures d.CreateNew? ==> r == ps + [candidate]
  {
    match d
    case Discard(_) => ps
    case UpdateCertainty(k) => ps[k := ps[k].(certainty := candidate.certainty)]
    case CreateNew => ps + [candidate]
  }

  /** At most one open prediction per (company, direction, predicted change). */
  predicate NoOpenDuplicates(ps: seq<Prediction>) {
    forall i, j :: 0 <= i < j < |ps| && IsOpen(ps[i]) ==> !IsOpenDuplicate(ps[j], ps[i])
  }

  /** Reconciling an open candidate keeps the store free of open duplicates. */
  lemma ReconcileKeepsNoOpenDuplicates(ps: seq<Prediction>, candidate: Prediction)
    requires NoOpenDuplicates(ps)
    requires IsOpen(candidate)
    ensures var d := Reconcile(ps, candidate);
            NoOpenDuplicates(Apply(ps, candidate, d))
  {
    var d := Reconcile(ps, candidate);
    var r := Apply(ps, candidate, d);
    forall i, j | 0 <= i < j < |r| && IsOpen(r[i])
      ensures !IsOpenDuplicate(r[j], r[i])
    {
      if d.CreateNew? && j == |ps| {
        assert !IsOpenDuplicate(ps[i], candidate);
      }
    }
  }

  /**
   * Reconciling the same forecast a second time, against the store the first
   * reconciliation left, discards it: a repeated run writes nothing.
   */
  lemma ReconcileTwiceDiscards(ps: seq<Prediction>, candidate: Prediction, again: Prediction)
    requires IsOpen(candidate)
    requires again.company == candidate.company && again.direction == candidate.direction
    requires again.predictedChange == candidate.predictedChange && again.certainty == candidate.certainty
    ensures var after := Apply(ps, candidate, Reconcile(ps, candidate));
            Reconcile(after, again).Discard?
  {
    var d := Reconcile(ps, candidate);
    var after := Apply(ps, candidate, d);
    assert forall j :: 0 <= j < |ps| ==> (IsOpenDuplicate(ps[j], candidate) <==> IsOpenDuplicate(ps[j], again));
    match d
    case Discard(k) =>
      assert IsOpenDuplicate(after[k], again);
    case UpdateCertainty(k) =>
      assert IsOpenDuplicate(after[k], again);
      assert forall j :: 0 <= j < k ==> !IsOpenDuplicate(after[j], again);
    case CreateNew =>
      assert IsOpenDuplicate(after[|ps|], again);
  }
}
