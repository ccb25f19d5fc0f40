/**
  The padding masks and the label handling of one training step of the
  reactivity trainer. Tensors are nested sequences; the trailing dimension of
  size one that the masks carry for broadcasting is dropped. Labels are the
  bond-change labels: 1 for a changing pair, 0 for an unchanged one and -1
  for a padded position.
 */
module Masks {
  import opened Counting

  /** The number of neighbour slots per atom in the padded neighbour tensors. */
  const NeighborSlots: nat := 10

  /** The first `width` slot flags of an atom with `n` neighbours: `n > j` for each slot `j`. */
  function Slots(n: nat, width: nat): (r: seq<bool>)
    ensures |r| == width
    ensures forall j :: 0 <= j < width ==> (r[j] <==> j < n)
  {
    seq(width, j => j < n)
  }

  /** The usable slots of an atom are its first `min(n, width)` slots, and no others. */
  lemma {:induction false} SlotsCount(n: nat, width: nat)
    ensures CountTrue(Slots(n, width)) == if n < width then n else width
  {
    if width > 0 {
      var r := Slots(n, width);
      assert r[..width - 1] == Slots(n, width - 1);
      SlotsCount(n, width - 1);
    }
  }

  /** `mask_neis`: for each example and atom, which of the ten neighbour slots are real. */
  function NeighborMask(nBonds: seq<seq<nat>>): (m: seq<seq<seq<bool>>>)
    ensures |m| == |nBonds|
    ensures forall b :: 0 <= b < |m| ==> |m[b]| == |nBonds[b]|
    ensures forall b, a :: 0 <= b < |m| && 0 <= a < |m[b]| ==> |m[b][a]| == NeighborSlots
    ensures forall b, a, j :: 0 <= b < |m| && 0 <= a < |m[b]| && 0 <= j < NeighborSlots ==>
              (m[b][a][j] <==> j < nBonds[b][a])
  {
    seq(|nBonds|, b requires 0 <= b < |nBonds| =>
      seq(|nBonds[b]|, a requires 0 <= a < |nBonds[b]| => Slots(nBonds[b][a], NeighborSlots)))
  }

  /** Each atom's true slots are a prefix, as long as its bond count, capped at ten. */
  lemma NeighborMaskCounts(nBonds: seq<seq<nat>>, b: nat, a: nat)
    requires b < |nBonds| && a < |nBonds[b]|
    ensures CountTrue(NeighborMask(nBonds)[b][a])
         == if nBonds[b][a] < NeighborSlots then nBonds[b][a] else NeighborSlots
    ensures forall j, j' :: 0 <= j' <= j < NeighborSlots && NeighborMask(nBonds)[b][a][j] ==>
              NeighborMask(nBonds)[b][a][j']
  {
    assert NeighborMask(nBonds)[b][a] == Slots(nBonds[b][a], NeighborSlots);
    SlotsCount(nBonds[b][a], NeighborSlots);
  }

  /** `n_atoms.max()`. An empty batch makes torch raise; it is excluded. */
  function MaxOf(ns: seq<nat>): (m: nat)
    requires |ns| > 0
    ensures m in ns
    ensures forall i :: 0 <= i < |ns| ==> ns[i] <= m
  {
    if |ns| == 1 then ns[0]
    else
      var m := MaxOf(ns[..|ns| - 1]);
      assert forall i :: 0 <= i < |ns| - 1 ==> ns[..|ns| - 1][i] == ns[i];
      if ns[|ns| - 1] > m then ns[|ns| - 1] else m
  }

  /** `mask_atoms`: one row per example, as wide as the largest example, true on its real atoms. */
  function AtomMask(nAtoms: seq<nat>): (m: seq<seq<bool>>)
    requires |nAtoms| > 0
    ensures |m| == |nAtoms|
    ensures forall b :: 0 <= b < |m| ==> |m[b]| == MaxOf(nAtoms)
    ensures forall b, a :: 0 <= b < |m| && 0 <= a < MaxOf(nAtoms) ==> (m[b][a] <==> a < nAtoms[b])
  {
    seq(|nAtoms|, b requires 0 <= b < |nAtoms| => Slots(nAtoms[b], MaxOf(nAtoms)))
  }

  /**
    The example with the most atoms has an all-true row, every other row has
    exactly as many true entries as its example has atoms.
   */
  lemma AtomMaskRows(nAtoms: seq<nat>)
    requires |nAtoms| > 0
    ensures exists b :: 0 <= b < |nAtoms| && forall a :: 0 <= a < MaxOf(nAtoms) ==> AtomMask(nAtoms)[b][a]
    ensures forall b :: 0 <= b < |nAtoms| ==> CountTrue(AtomMask(nAtoms)[b]) == nAtoms[b]
  {
    var m := AtomMask(nAtoms);
    var b :| 0 <= b < |nAtoms| && nAtoms[b] == MaxOf(nAtoms);
    assert forall a :: 0 <= a < MaxOf(nAtoms) ==> m[b][a];
    forall b | 0 <= b < |nAtoms| ensures CountTrue(m[b]) == nAtoms[b] {
      assert m[b] == Slots(nAtoms[b], MaxOf(nAtoms));
      SlotsCount(nAtoms[b], MaxOf(nAtoms));
    }
  }

  /** `F.relu` of a label: the padding label -1 becomes 0, the labels 0 and 1 are kept. */
  function ClampLabel(l: real): (r: real)
    ensures r >= 0.0
    ensures l == -1.0 ==> r == 0.0
    ensures (l == 0.0 || l == 1.0) ==> r == l
  {
    if l > 0.0 then l else 0.0
  }

  /** `torch.ne(label, -1).float()`: 0 exactly on padded positions, 1 elsewhere. */
  function LossWeight(l: real): (w: real)
    ensures w == 0.0 <==> l == -1.0
    ensures w == 0.0 || w == 1.0
  {
    if l != -1.0 then 1.0 else 0.0
  }

  /** The element-wise loss after `loss *= weight`. */
  function Weighted(loss: seq<real>, labels: seq<real>): (r: seq<real>)
    requires |loss| == |labels|
    ensures |r| == |loss|
    ensures forall i :: 0 <= i < |r| ==> r[i] == if labels[i] == -1.0 then 0.0 else loss[i]
  {
    seq(|loss|, i requires 0 <= i < |loss| => loss[i] * LossWeight(labels[i]))
  }

  function Sum(xs: seq<real>): real
  {
    if |xs| == 0 then 0.0 else Sum(xs[..|xs| - 1]) + xs[|xs| - 1]
  }

  /** Concatenation of the rows (`torch.flatten`, row-major). */
  function Flatten<T>(rows: seq<seq<T>>): seq<T>
  {
    if |rows| == 0 then [] else Flatten(rows[..|rows| - 1]) + rows[|rows| - 1]
  }

  /**
    `torch.mean` of the weighted loss: the sum of the unmasked losses divided
    by the number of ALL elements, padded ones included. An empty tensor
    (whose mean is NaN) is excluded.
   */
  function MaskedMean(loss: seq<real>, labels: seq<real>): (r: real)
    requires |loss| == |labels| > 0
    ensures r * (|loss| as real) == Sum(Weighted(loss, labels))
  {
    Sum(Weighted(loss, labels)) / (|loss| as real)
  }

  lemma {:induction false} SumZero(xs: seq<real>)
    requires forall i :: 0 <= i < |xs| ==> xs[i] == 0.0
    ensures Sum(xs) == 0.0
  {
    if |xs| > 0 {
      SumZero(xs[..|xs| - 1]);
    }
  }

  /** Losses at padded positions do not affect the mean. */
  lemma MaskedMeanIgnoresPadding(loss: seq<real>, loss': seq<real>, labels: seq<real>)
    requires |loss| == |loss'| == |labels| > 0
    requires forall i :: 0 <= i < |labels| && labels[i] != -1.0 ==> loss[i] == loss'[i]
    ensures MaskedMean(loss, labels) == MaskedMean(loss', labels)
  {
    assert Weighted(loss, labels) == Weighted(loss', labels);
  }

  /** A batch made only of padding has mean loss 0. */
  lemma MaskedMeanAllPadding(loss: seq<real>, labels: seq<real>)
    requires |loss| == |labels| > 0
    requires forall i :: 0 <= i < |labels| ==> labels[i] == -1.0
    ensures MaskedMean(loss, labels) == 0.0
  {
    SumZero(Weighted(loss, labels));
  }
}
