/**
  Top-k selection of the reactivity network and the accuracy accounting of
  the trainer: the flattened top-k and label index pairs, the per-example
  recovery from them, and "all changing pairs found among the first k".
  Pair scores and labels of an example are given already flattened.
 */
module Accuracy {
  import opened Sorting
  import opened Counting

  /** The number of indices `forward` keeps per example. */
  const ForwardK: nat := 20

  /** The number of leading predictions that the first accuracy figure looks at. */
  const ShortK: nat := 10

  function Range(n: nat): (r: seq<nat>)
    ensures |r| == n && forall i :: 0 <= i < n ==> r[i] == i
  {
    seq(n, i => i)
  }

  lemma {:induction false} RangeMultiset(n: nat, x: nat)
    ensures multiset(Range(n))[x] == if x < n then 1 else 0
  {
    if n > 0 {
      assert Range(n) == Range(n - 1) + [n - 1];
      RangeMultiset(n - 1, x);
    }
  }

  /** The score of a flattened pair position; positions past the end do not occur. */
  function ScoreKey(scores: seq<real>): nat -> real
  {
    (p: nat) => if p < |scores| then scores[p] else 0.0
  }

  /** All positions, best score first; equal scores keep ascending position order. */
  function RankedPositions(scores: seq<real>): seq<nat>
  {
    SortDesc(Range(|scores|), ScoreKey(scores))
  }

  /** `torch.topk(scores, k)` indices. torch raises when k exceeds the size. */
  function TopK(scores: seq<real>, k: nat): (r: seq<nat>)
    requires k <= |scores|
    ensures |r| == k
  {
    assert |RankedPositions(scores)| == |scores| by {
      assert |multiset(RankedPositions(scores))| == |multiset(Range(|scores|))|;
    }
    RankedPositions(scores)[..k]
  }

  lemma RankedPositionsPermutes(scores: seq<real>)
    ensures |RankedPositions(scores)| == |scores|
    ensures forall p: nat :: p in RankedPositions(scores) <==> p < |scores|
    ensures forall i, j :: 0 <= i < j < |scores| ==> RankedPositions(scores)[i] != RankedPositions(scores)[j]
  {
    var r := RankedPositions(scores);
    assert multiset(r) == multiset(Range(|scores|));
    assert |r| == |scores| by {
      assert |multiset(r)| == |multiset(Range(|scores|))|;
    }
    forall p: nat ensures p in r <==> p < |scores| {
      RangeMultiset(|scores|, p);
      assert p in r <==> p in multiset(r);
    }
    forall i, j | 0 <= i < j < |scores| ensures r[i] != r[j] {
      if r[i] == r[j] {
        var x := r[i];
        assert r == r[..j] + r[j..];
        assert x in r[..j];
        assert x in r[j..];
        assert multiset(r)[x] == multiset(r[..j])[x] + multiset(r[j..])[x];
        RangeMultiset(|scores|, x);
        assert false;
      }
    }
  }

  /**
    The selected indices: exactly k, distinct, within the score range, in
    descending score order, and no unselected position scores higher than a
    selected one.
   */
  lemma TopKSelects(scores: seq<real>, k: nat)
    requires k <= |scores|
    ensures |TopK(scores, k)| == k
    ensures forall i :: 0 <= i < k ==> TopK(scores, k)[i] < |scores|
    ensures forall i, j :: 0 <= i < j < k ==> TopK(scores, k)[i] != TopK(scores, k)[j]
    ensures forall i, j :: 0 <= i < j < k ==>
              scores[TopK(scores, k)[i]] >= scores[TopK(scores, k)[j]]
    ensures forall i, p :: 0 <= i < k && 0 <= p < |scores| && p !in TopK(scores, k) ==>
              scores[TopK(scores, k)[i]] >= scores[p]
  {
    var r := RankedPositions(scores);
    var key := ScoreKey(scores);
    RankedPositionsPermutes(scores);
    SortDescIsDescending(Range(|scores|), key);
    var t := TopK(scores, k);
    assert t == r[..k];
    forall i | 0 <= i < k ensures t[i] < |scores| {
      assert t[i] == r[i];
      assert r[i] in r;
    }
    forall i, j | 0 <= i < j < k ensures scores[t[i]] >= scores[t[j]] {
      assert r[i] in r && r[j] in r;
      assert key(r[i]) >= key(r[j]);
    }
    forall i, p | 0 <= i < k && 0 <= p < |scores| && p !in t ensures scores[t[i]] >= scores[p] {
      assert p in r;
      var q :| 0 <= q < |r| && r[q] == p;
      if q < k {
        assert false;
      }
      assert r[i] in r;
      assert key(r[i]) >= key(r[q]);
    }
  }

  /** The `top_k` output of `forward`: 20 indices for each example's flattened scores. */
  function ForwardTopK(masked: seq<seq<real>>): (r: seq<seq<nat>>)
    requires forall b :: 0 <= b < |masked| ==> |masked[b]| >= ForwardK
    ensures |r| == |masked|
    ensures forall b :: 0 <= b < |r| ==> |r[b]| == ForwardK
    ensures forall b, i :: 0 <= b < |r| && 0 <= i < ForwardK ==> r[b][i] < |masked[b]|
    ensures forall b, i, j :: 0 <= b < |r| && 0 <= i < j < ForwardK ==> r[b][i] != r[b][j]
  {
    TopKEach(masked, ForwardK);
    seq(|masked|, b requires 0 <= b < |masked| => TopK(masked[b], ForwardK))
  }

  lemma TopKEach(masked: seq<seq<real>>, k: nat)
    requires forall b :: 0 <= b < |masked| ==> |masked[b]| >= k
    ensures forall b :: 0 <= b < |masked| ==> |TopK(masked[b], k)| == k
    ensures forall b, i :: 0 <= b < |masked| && 0 <= i < k ==> TopK(masked[b], k)[i] < |masked[b]|
    ensures forall b, i, j :: 0 <= b < |masked| && 0 <= i < j < k ==> TopK(masked[b], k)[i] != TopK(masked[b], k)[j]
  {
    forall b | 0 <= b < |masked| ensures |TopK(masked[b], k)| == k
      && (forall i :: 0 <= i < k ==> TopK(masked[b], k)[i] < |masked[b]|)
      && (forall i, j :: 0 <= i < j < k ==> TopK(masked[b], k)[i] != TopK(masked[b], k)[j])
    {
      TopKSelects(masked[b], k);
    }
  }

  // ---------------------------------------------------------------------------
  // Index pairs and their recovery

  /** One example's row tagged with its example index: `(j, row[k])` for each k. */
  function Tag(j: nat, row: seq<nat>): (r: seq<(nat, nat)>)
    ensures |r| == |row|
    ensures forall k :: 0 <= k < |row| ==> r[k] == (j, row[k])
  {
    seq(|row|, k requires 0 <= k < |row| => (j, row[k]))
  }

  /** The tagged rows one after the other: the layout of `sp_top_k` and of `sp_labels`. */
  function Tagged(rows: seq<seq<nat>>): seq<(nat, nat)>
  {
    if |rows| == 0 then [] else Tagged(rows[..|rows| - 1]) + Tag(|rows| - 1, rows[|rows| - 1])
  }

  lemma MulStep(j: nat, n: nat, w: nat)
    requires j < n
    ensures j * w + w <= n * w
    ensures (n - 1) * w + w == n * w
  {
  }

  /** Rows of width `nk` tag into `|rows| * nk` pairs. */
  lemma {:induction false} TaggedLength(rows: seq<seq<nat>>, nk: nat)
    requires forall j :: 0 <= j < |rows| ==> |rows[j]| == nk
    ensures |Tagged(rows)| == |rows| * nk
  {
    if |rows| > 0 {
      TaggedLength(rows[..|rows| - 1], nk);
      MulStep(|rows| - 1, |rows|, nk);
    }
  }

  /** The layout of `sp_top_k`: with rows of width `nk`, entry `j * nk + k` is `(j, rows[j][k])`. */
  lemma {:induction false} TaggedEntry(rows: seq<seq<nat>>, nk: nat, j: nat, k: nat)
    requires forall i :: 0 <= i < |rows| ==> |rows[i]| == nk
    requires j < |rows| && k < nk
    ensures j * nk + k < |Tagged(rows)| && Tagged(rows)[j * nk + k] == (j, rows[j][k])
  {
    var n := |rows|;
    var init := rows[..n - 1];
    TaggedLength(init, nk);
    TaggedLength(rows, nk);
    if j < n - 1 {
      TaggedEntry(init, nk, j, k);
      MulStep(j, n - 1, nk);
    }
  }

  /**
    The `sp_top_k` loop: a buffer of `batch_size * nk` pairs whose entry
    `j * nk + k` is set to `(j, top_k[j, k])`.
   */
  method FlattenTopK(topK: seq<seq<nat>>, nk: nat) returns (sp: array<(nat, nat)>)
    requires forall j :: 0 <= j < |topK| ==> |topK[j]| == nk
    ensures fresh(sp)
    ensures sp[..] == Tagged(topK)
  {
    sp := new (nat, nat)[|topK| * nk](_ => (0, 0));
    var start: nat := 0;
    for j := 0 to |topK|
      invariant start <= sp.Length
      invariant sp[..start] == Tagged(topK[..j])
    {
      RoomForRow(topK, nk, j);
      assert |Tagged(topK[..j])| == start;
      FillRow(sp, start, j, topK[j]);
      RowAppended(sp[..], topK, start, j);
      start := start + nk;
    }
    assert topK[..|topK|] == topK;
    TaggedLength(topK, nk);
    assert sp[..] == sp[..start];
  }

  /** A buffer holding rows `..j` then row `j` tagged holds rows `..j + 1`. */
  lemma RowAppended(buf: seq<(nat, nat)>, rows: seq<seq<nat>>, start: nat, j: nat)
    requires j < |rows| && start + |rows[j]| <= |buf|
    requires buf[..start] == Tagged(rows[..j])
    requires buf[start..start + |rows[j]|] == Tag(j, rows[j])
    ensures buf[..start + |rows[j]|] == Tagged(rows[..j + 1])
  {
    assert buf[..start + |rows[j]|] == buf[..start] + buf[start..start + |rows[j]|];
    assert rows[..j + 1][..j] == rows[..j];
  }

  /** Before row `j` of `sp_top_k` there are `j * nk` pairs, and row `j` still fits. */
  lemma RoomForRow(topK: seq<seq<nat>>, nk: nat, j: nat)
    requires forall i :: 0 <= i < |topK| ==> |topK[i]| == nk
    requires j < |topK|
    ensures |Tagged(topK[..j])| + nk <= |topK| * nk
  {
    TaggedLength(topK[..j], nk);
    MulStep(j, |topK|, nk);
  }

  /** The inner loop of `sp_top_k`: row `j` written from `start` on, the entries around it untouched. */
  method FillRow(sp: array<(nat, nat)>, start: nat, j: nat, row: seq<nat>)
    requires start + |row| <= sp.Length
    modifies sp
    ensures sp[..start] == old(sp[..start])
    ensures sp[start..start + |row|] == Tag(j, row)
    ensures sp[start + |row|..] == old(sp[start + |row|..])
  {
    for k := 0 to |row|
      invariant sp[..start] == old(sp[..start])
      invariant sp[start + |row|..] == old(sp[start + |row|..])
      invariant sp[start..start + k] == Tag(j, row[..k])
    {
      sp[start + k] := (j, row[k]);
      assert row[..k + 1] == row[..k] + [row[k]];
    }
    assert row[..|row|] == row;
  }

  /** `sp[torch.where(sp[:, 0] == j)[0], 1]`: the second components of the pairs tagged `j`, in order. */
  function Select(pairs: seq<(nat, nat)>, j: nat): (r: seq<nat>)
    ensures |r| <= |pairs|
    ensures forall x :: x in r ==> (j, x) in pairs
  {
    if |pairs| == 0 then []
    else Select(pairs[..|pairs| - 1], j) + (if pairs[|pairs| - 1].0 == j then [pairs[|pairs| - 1].1] else [])
  }

  lemma {:induction false} SelectAppend(a: seq<(nat, nat)>, b: seq<(nat, nat)>, j: nat)
    ensures Select(a + b, j) == Select(a, j) + Select(b, j)
  {
    if |b| == 0 {
      assert a + b == a;
    } else {
      var b' := b[..|b| - 1];
      assert (a + b)[..|a + b| - 1] == a + b';
      SelectAppend(a, b', j);
    }
  }

  lemma {:induction false} SelectTag(i: nat, row: seq<nat>, j: nat)
    ensures Select(Tag(i, row), j) == if i == j then row else []
  {
    if |row| > 0 {
      var init := row[..|row| - 1];
      assert Tag(i, row)[..|row| - 1] == Tag(i, init);
      SelectTag(i, init, j);
      assert init + [row[|row| - 1]] == row;
    }
  }

  /** Recovery: the pairs tagged `j` give back row `j` in its original order, and nothing else. */
  lemma {:induction false} SelectTagged(rows: seq<seq<nat>>, j: nat)
    ensures Select(Tagged(rows), j) == if j < |rows| then rows[j] else []
  {
    if |rows| > 0 {
      var n := |rows|;
      var init := rows[..n - 1];
      SelectAppend(Tagged(init), Tag(n - 1, rows[n - 1]), j);
      SelectTag(n - 1, rows[n - 1], j);
      SelectTagged(init, j);
      if j < n - 1 {
        assert init[j] == rows[j];
      }
    }
  }

  /** The flattened positions of an example whose label is 1, ascending. */
  function Positives(labels: seq<real>): (r: seq<nat>)
    ensures forall p: nat :: p in r <==> p < |labels| && labels[p] == 1.0
  {
    if |labels| == 0 then []
    else
      var init := labels[..|labels| - 1];
      assert forall p :: 0 <= p < |init| ==> init[p] == labels[p];
      Positives(init) + (if labels[|labels| - 1] == 1.0 then [|labels| - 1] else [])
  }

  /** `sp_labels`: the `(example, position)` pairs with label 1, in row-major order. */
  function LabelPairs(labels: seq<seq<real>>): (r: seq<(nat, nat)>)
    ensures forall j: nat :: Select(r, j) == if j < |labels| then Positives(labels[j]) else []
  {
    var rows := seq(|labels|, b requires 0 <= b < |labels| => Positives(labels[b]));
    assert forall j: nat :: Select(Tagged(rows), j) == if j < |labels| then Positives(labels[j]) else [] by {
      forall j: nat ensures Select(Tagged(rows), j) == if j < |labels| then Positives(labels[j]) else [] {
        SelectTagged(rows, j);
      }
    }
    Tagged(rows)
  }

  /** `mol_labels[j]` */
  function MolLabels(labels: seq<seq<real>>, j: nat): seq<nat>
  {
    Select(LabelPairs(labels), j)
  }

  /** `mol_topk[j]` */
  function MolTopK(topK: seq<seq<nat>>, j: nat): seq<nat>
  {
    Select(Tagged(topK), j)
  }

  lemma MolRecovered(labels: seq<seq<real>>, topK: seq<seq<nat>>, j: nat)
    requires j < |labels| && j < |topK|
    ensures MolLabels(labels, j) == Positives(labels[j])
    ensures MolTopK(topK, j) == topK[j]
  {
    SelectTagged(seq(|labels|, b requires 0 <= b < |labels| => Positives(labels[b])), j);
    SelectTagged(topK, j);
  }

  // ---------------------------------------------------------------------------
  // Hits and all-correct

  /** For each target, whether some prediction equals it (`(targets == preds[:, None]).any(dim=0)`). */
  function Hits(targets: seq<nat>, preds: seq<nat>): (r: seq<bool>)
    ensures |r| == |targets|
    ensures forall q :: 0 <= q < |r| ==> (r[q] <==> targets[q] in preds)
  {
    seq(|targets|, q requires 0 <= q < |targets| => targets[q] in preds)
  }

  /** `.all()`, true on an empty sequence. */
  predicate AllOf(bs: seq<bool>)
  {
    |bs| == 0 || (AllOf(bs[..|bs| - 1]) && bs[|bs| - 1])
  }

  lemma {:induction false} AllOfIff(bs: seq<bool>)
    ensures AllOf(bs) <==> forall q :: 0 <= q < |bs| ==> bs[q]
  {
    if |bs| > 0 {
      var init := bs[..|bs| - 1];
      AllOfIff(init);
      assert forall q :: 0 <= q < |init| ==> init[q] == bs[q];
    }
  }

  /** Python's `s[:k]`. */
  function Prefix(s: seq<nat>, k: nat): (r: seq<nat>)
    ensures |r| <= k && |r| <= |s|
    ensures forall x :: x in r ==> x in s
    ensures |r| == if k <= |s| then k else |s|
    ensures r == s[..|r|]
  {
    if k <= |s| then s[..k] else s
  }

  /** `all_correct_10`: for each example, whether all its label-1 positions are among `mol_topk[:10]`. */
  function AllCorrect10(labels: seq<seq<real>>, topK: seq<seq<nat>>): (r: seq<bool>)
    ensures |r| == |topK|
  {
    seq(|topK|, j requires 0 <= j < |topK| => AllOf(Hits(MolLabels(labels, j), Prefix(MolTopK(topK, j), ShortK))))
  }

  /** `all_correct_20`: the same over all of `mol_topk`, without slicing. */
  function AllCorrect20(labels: seq<seq<real>>, topK: seq<seq<nat>>): (r: seq<bool>)
    ensures |r| == |topK|
  {
    seq(|topK|, j requires 0 <= j < |topK| => AllOf(Hits(MolLabels(labels, j), MolTopK(topK, j))))
  }

  /**
    Example j is correct at 10 (at 20) exactly when every position with label
    1 occurs among the first 10 (all) of its top-k indices. An example
    without such a position is therefore correct.
   */
  lemma CorrectIff(labels: seq<seq<real>>, topK: seq<seq<nat>>, j: nat)
    requires j < |labels| && j < |topK|
    ensures AllCorrect10(labels, topK)[j] <==>
      forall p :: 0 <= p < |labels[j]| && labels[j][p] == 1.0 ==> p in Prefix(topK[j], ShortK)
    ensures AllCorrect20(labels, topK)[j] <==>
      forall p :: 0 <= p < |labels[j]| && labels[j][p] == 1.0 ==> p in topK[j]
    ensures (forall p :: 0 <= p < |labels[j]| ==> labels[j][p] != 1.0) ==>
      AllCorrect10(labels, topK)[j] && AllCorrect20(labels, topK)[j]
  {
    MolRecovered(labels, topK, j);
    var pos := Positives(labels[j]);
    var h10 := Hits(pos, Prefix(topK[j], ShortK));
    var h20 := Hits(pos, topK[j]);
    assert AllCorrect10(labels, topK)[j] == AllOf(h10);
    assert AllCorrect20(labels, topK)[j] == AllOf(h20);
    FoundIff(pos, labels[j], Prefix(topK[j], ShortK));
    FoundIff(pos, labels[j], topK[j]);
  }

  lemma FoundIff(pos: seq<nat>, labels: seq<real>, preds: seq<nat>)
    requires pos == Positives(labels)
    ensures AllOf(Hits(pos, preds)) <==> forall p :: 0 <= p < |labels| && labels[p] == 1.0 ==> p in preds
  {
    var h := Hits(pos, preds);
    AllOfIff(h);
    if AllOf(h) {
      forall p | 0 <= p < |labels| && labels[p] == 1.0 ensures p in preds {
        var q :| 0 <= q < |pos| && pos[q] == p;
        assert h[q];
      }
    }
    if forall p :: 0 <= p < |labels| && labels[p] == 1.0 ==> p in preds {
      forall q | 0 <= q < |h| ensures h[q] {
        assert pos[q] in pos;
      }
    }
  }

  /** Correct at 10 implies correct at 20. */
  lemma Correct10Implies20(labels: seq<seq<real>>, topK: seq<seq<nat>>, j: nat)
    requires j < |topK|
    ensures AllCorrect10(labels, topK)[j] ==> AllCorrect20(labels, topK)[j]
  {
    var targets, preds := MolLabels(labels, j), MolTopK(topK, j);
    var h10 := Hits(targets, Prefix(preds, ShortK));
    var h20 := Hits(targets, preds);
    assert AllCorrect10(labels, topK)[j] == AllOf(h10);
    assert AllCorrect20(labels, topK)[j] == AllOf(h20);
    AllOfIff(h10);
    AllOfIff(h20);
    forall q | 0 <= q < |targets| && h10[q] ensures h20[q] {
      assert targets[q] in Prefix(preds, ShortK);
    }
  }

  /** `sum(all_correct_10) <= sum(all_correct_20) <= batch_size`. */
  lemma CorrectCounts(labels: seq<seq<real>>, topK: seq<seq<nat>>)
    ensures CountTrue(AllCorrect10(labels, topK)) <= CountTrue(AllCorrect20(labels, topK)) <= |topK|
  {
    forall j | 0 <= j < |topK| && AllCorrect10(labels, topK)[j] ensures AllCorrect20(labels, topK)[j] {
      Correct10Implies20(labels, topK, j);
    }
    CountTrueMonotone(AllCorrect10(labels, topK), AllCorrect20(labels, topK));
  }
}
