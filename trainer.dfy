/**
  The bookkeeping of `ReactivityTrainer.iterate` over one pass of a data
  loader: per-batch loss and accuracy counts, the window accumulators that
  are logged and reset every `log_freq` batches, and the learning rate
  written into the optimizer's parameter groups; plus the output path of
  `save`. The network's outputs for each batch (element-wise losses, top-k
  indices, parameter and gradient norms) are inputs.
 */
module Trainer {
  import opened Wrappers
  import opened Counting
  import opened Masks
  import opened Accuracy
  import opened Decimal

  /**
    What one batch contributes. `labels` and `elementLoss` are per example and
    flattened over the pair positions; `topK` is the `top_k` of `forward`.
   */
  datatype Batch = Batch(
    labels: seq<seq<real>>,
    elementLoss: seq<seq<real>>,
    topK: seq<seq<nat>>,
    paramNorm: real,
    gradNorm: real)

  /** The loss tensor has the labels' shape and at least one element, and there is one top-k row per label row. */
  predicate Shaped(b: Batch)
  {
    var n := |Flatten(b.labels)|;
    |Flatten(b.elementLoss)| == n && n > 0 && |b.labels| == |b.topK|
  }

  predicate AllShaped(bs: seq<Batch>)
  {
    forall k :: 0 <= k < |bs| ==> Shaped(bs[k])
  }

  /** `loss.item()` */
  function BatchLoss(b: Batch): real
    requires Shaped(b)
  {
    MaskedMean(Flatten(b.elementLoss), Flatten(b.labels))
  }

  /** `sum(all_correct_10)` and `sum(all_correct_20)` */
  function Correct10(b: Batch): nat
  {
    CountTrue(AllCorrect10(b.labels, b.topK))
  }

  function Correct20(b: Batch): nat
  {
    CountTrue(AllCorrect20(b.labels, b.topK))
  }

  /** `batch_size`, the first dimension of `top_k`. */
  function BatchSize(b: Batch): nat
  {
    |b.topK|
  }

  /** What `iterate` keeps of one batch: its loss, its two correct counts, its size and norms. */
  datatype Stats = Stats(loss: real, correct10: nat, correct20: nat, size: nat, paramNorm: real, gradNorm: real)

  /** The statistics of a batch; at most as many correct at 10 as at 20, and at most the batch size. */
  function StatsOf(b: Batch): (st: Stats)
    requires Shaped(b)
    ensures st.correct10 <= st.correct20 <= st.size
    ensures st.size == BatchSize(b) && st.paramNorm == b.paramNorm && st.gradNorm == b.gradNorm
  {
    CorrectCounts(b.labels, b.topK);
    Stats(BatchLoss(b), Correct10(b), Correct20(b), BatchSize(b), b.paramNorm, b.gradNorm)
  }

  function StatsSeq(bs: seq<Batch>): (r: seq<Stats>)
    requires AllShaped(bs)
    ensures |r| == |bs| && forall k :: 0 <= k < |bs| ==> r[k] == StatsOf(bs[k])
  {
    seq(|bs|, k requires 0 <= k < |bs| => StatsOf(bs[k]))
  }

  /** The accumulators `avg_loss`, `sum_acc_10`, `sum_acc_20`, `sum_gnorm`. */
  datatype Sums = Sums(loss: real, correct10: nat, correct20: nat, gradNorm: real)

  const Zero := Sums(0.0, 0, 0, 0.0)

  /** One batch added to the accumulators; the gradient norm only in training mode. */
  function Add(s: Sums, st: Stats, train: bool): Sums
  {
    Sums(s.loss + st.loss, s.correct10 + st.correct10, s.correct20 + st.correct20,
         if train then s.gradNorm + st.gradNorm else s.gradNorm)
  }

  /** The accumulators after adding the batches one by one to zero. */
  function Total(sts: seq<Stats>, train: bool): Sums
  {
    if |sts| == 0 then Zero else Add(Total(sts[..|sts| - 1], train), sts[|sts| - 1], train)
  }

  /** The number of examples in the batches. */
  function Examples(sts: seq<Stats>): nat
  {
    if |sts| == 0 then 0 else Examples(sts[..|sts| - 1]) + sts[|sts| - 1].size
  }

  /**
    One log line: the accuracies are `sum / examples` with `examples =
    log_freq * batch_size` of the batch that closes the window; the parameter
    norm of that batch and the window's gradient norm only in training mode.
   */
  datatype Log = Log(
    epoch: int, iter: nat, iters: nat,
    avgLoss: real, correct10: nat, correct20: nat, examples: nat,
    norms: Option<(real, real)>)

  function LogOf(epoch: int, iter: nat, iters: nat, w: Sums, last: Stats, freq: nat, train: bool): (r: Log)
    ensures r.examples == freq * last.size
    ensures r.avgLoss == w.loss && r.correct10 == w.correct10 && r.correct20 == w.correct20
    ensures r.norms.Some? <==> train
    ensures train ==> r.norms.value == (last.paramNorm, w.gradNorm)
  {
    Log(epoch, iter, iters, w.loss, w.correct10, w.correct20, freq * last.size,
        if train then Some((last.paramNorm, w.gradNorm)) else None)
  }

  /** The ratio a log line prints; Python raises on a zero denominator. */
  function Ratio(count: nat, examples: nat): (r: Option<real>)
    ensures r.Some? <==> examples > 0
    ensures r.Some? ==> 0.0 <= r.value && (count <= examples ==> r.value <= 1.0)
  {
    if examples == 0 then None else Some(count as real / examples as real)
  }

  /** The logs so far and the open window, after the batches `sts` with `log_freq == freq`. */
  datatype Run = Run(logs: seq<Log>, window: Sums)

  function Trace(freq: nat, epoch: int, iters: nat, sts: seq<Stats>, train: bool): (r: Run)
    requires freq > 0
    ensures |r.logs| <= |sts|
    ensures |sts| % freq == 0 ==> r.window == Zero
  {
    if |sts| == 0 then Run([], Zero)
    else
      var prev := Trace(freq, epoch, iters, sts[..|sts| - 1], train);
      var last := sts[|sts| - 1];
      var w := Add(prev.window, last, train);
      if |sts| % freq == 0 then Run(prev.logs + [LogOf(epoch, |sts|, iters, w, last, freq, train)], Zero)
      else Run(prev.logs, w)
  }

  // ---------------------------------------------------------------------------
  // Window arithmetic

  lemma MulSplit(a: nat, b: nat, f: nat)
    requires a >= b
    ensures a * f == b * f + (a - b) * f
  {
  }

  lemma MulSucc(a: nat, f: nat)
    ensures (a + 1) * f == a * f + f
  {
  }

  lemma MulMonotone(x: nat, y: nat, f: nat)
    ensures y <= x ==> y * f <= x * f
  {
    if y <= x {
      MulSplit(x, y, f);
    }
  }

  /** Quotient and remainder are unique. */
  lemma DivModUnique(n: nat, f: nat, q: nat, r: nat)
    requires f > 0 && r < f && n == q * f + r
    ensures n / f == q && n % f == r
  {
    var q', r' := n / f, n % f;
    assert n == q' * f + r';
    MulMonotone(q', q + 1, f);
    MulSucc(q, f);
    MulMonotone(q, q' + 1, f);
    MulSucc(q', f);
  }

  /** How `i % freq` and `i / freq` move when a batch begins or closes a window. */
  lemma ModStep(n: nat, f: nat)
    requires n > 0 && f > 0
    ensures n % f == 0 ==> (n - 1) % f == f - 1 && (n - 1) / f == n / f - 1 && n / f > 0
    ensures n % f != 0 ==> (n - 1) % f == n % f - 1 && (n - 1) / f == n / f
  {
    var q, r := n / f, n % f;
    if r == 0 {
      assert q > 0;
      DivModUnique(n - 1, f, q - 1, f - 1);
    } else {
      DivModUnique(n - 1, f, q, r - 1);
    }
  }

  /**
    The first batch of the open window after `n` batches: the batch after the
    last log, at the last multiple of `f`.
   */
  function WindowStart(n: nat, f: nat): (lo: nat)
    requires f > 0
    ensures lo <= n && n - lo < f
    ensures lo == n <==> n % f == 0
    ensures lo % f == 0
  {
    assert n - n % f == (n / f) * f;
    DivModUnique(n - n % f, f, n / f, 0);
    n - n % f
  }

  /**
    A batch that does not close a window leaves the window's first batch
    where it was; one that closes it started `f` batches before.
   */
  lemma WindowStartStep(n: nat, f: nat)
    requires n > 0 && f > 0
    ensures n % f != 0 ==> WindowStart(n - 1, f) == WindowStart(n, f)
    ensures n % f == 0 ==> n >= f && WindowStart(n - 1, f) == n - f
  {
    ModStep(n, f);
  }

  /** `Trace` unfolded on a last batch. */
  lemma TraceSnoc(freq: nat, epoch: int, iters: nat, sts: seq<Stats>, st: Stats, train: bool)
    requires freq > 0
    ensures Trace(freq, epoch, iters, sts + [st], train)
         == var prev := Trace(freq, epoch, iters, sts, train);
            var w := Add(prev.window, st, train);
            if (|sts| + 1) % freq == 0 then Run(prev.logs + [LogOf(epoch, |sts| + 1, iters, w, st, freq, train)], Zero)
            else Run(prev.logs, w)
  {
    assert (sts + [st])[..|sts|] == sts;
  }

  /** The window of `init + [last]` that starts at `s` is the window of `init` from `s`, then `last`. */
  lemma WindowSnoc(init: seq<Stats>, last: Stats, s: nat, train: bool)
    requires s <= |init|
    ensures Total((init + [last])[s..], train) == Add(Total(init[s..], train), last, train)
  {
    var tail := init[s..];
    assert (init + [last])[s..] == tail + [last];
    assert (tail + [last])[..|tail|] == tail;
  }

  /** Integer division is monotone in the dividend. */
  lemma DivMonotone(a: nat, b: nat, f: nat)
    requires f > 0 && a <= b
    ensures a / f <= b / f
  {
    var qa, qb := a / f, b / f;
    assert a == qa * f + a % f && b == qb * f + b % f;
    MulMonotone(qa, qb + 1, f);
    MulSucc(qb, f);
  }

  /** A log index below `n / f` closes its window by batch `n`. */
  lemma MulAtMost(m: nat, q: nat, n: nat, f: nat)
    requires f > 0 && m < q && q == n / f
    ensures (m + 1) * f <= n
  {
    assert q * f <= n;
    MulSplit(q, m + 1, f);
  }

  /** After `n` batches there are `n / freq` logs: one per closed window. */
  lemma {:induction false} TraceCount(freq: nat, epoch: int, iters: nat, sts: seq<Stats>, train: bool)
    requires freq > 0
    ensures |Trace(freq, epoch, iters, sts, train).logs| == |sts| / freq
  {
    var n := |sts|;
    if n > 0 {
      var init := sts[..n - 1];
      assert sts == init + [sts[n - 1]];
      TraceCount(freq, epoch, iters, init, train);
      TraceSnoc(freq, epoch, iters, init, sts[n - 1], train);
      ModStep(n, freq);
    }
  }

  /** The open window holds the totals of the `n % freq` batches since the last log. */
  lemma {:induction false} TraceWindow(freq: nat, epoch: int, iters: nat, sts: seq<Stats>, train: bool)
    requires freq > 0
    ensures Trace(freq, epoch, iters, sts, train).window == Total(sts[WindowStart(|sts|, freq)..], train)
    decreases |sts|
  {
    if |sts| > 0 {
      var init := sts[..|sts| - 1];
      TraceWindow(freq, epoch, iters, init, train);
      WindowStep(freq, epoch, iters, init, sts[|sts| - 1], train);
      assert sts == init + [sts[|sts| - 1]];
    }
  }

  /** One batch more: the window either closes and empties or grows by that batch. */
  lemma WindowStep(freq: nat, epoch: int, iters: nat, init: seq<Stats>, last: Stats, train: bool)
    requires freq > 0
    requires Trace(freq, epoch, iters, init, train).window == Total(init[WindowStart(|init|, freq)..], train)
    ensures Trace(freq, epoch, iters, init + [last], train).window
         == Total((init + [last])[WindowStart(|init| + 1, freq)..], train)
  {
    var sts := init + [last];
    TraceSnoc(freq, epoch, iters, init, last, train);
    WindowStartStep(|sts|, freq);
    if |sts| % freq == 0 {
      assert sts[WindowStart(|sts|, freq)..] == [];
    } else {
      WindowSnoc(init, last, WindowStart(|init|, freq), train);
    }
  }

  /** Later batches only append logs: the logs of a prefix are a prefix of the logs. */
  lemma {:induction false} TracePrefix(freq: nat, epoch: int, iters: nat, sts: seq<Stats>, k: nat, train: bool)
    requires freq > 0 && k <= |sts|
    ensures Trace(freq, epoch, iters, sts[..k], train).logs <= Trace(freq, epoch, iters, sts, train).logs
  {
    var n := |sts|;
    if k < n {
      var init := sts[..n - 1];
      assert sts == init + [sts[n - 1]];
      assert init[..k] == sts[..k];
      TracePrefix(freq, epoch, iters, init, k, train);
      TraceSnoc(freq, epoch, iters, init, sts[n - 1], train);
    } else {
      assert sts[..k] == sts;
    }
  }

  /** The batch that closes a window logs the totals of the last `freq` batches. */
  lemma TraceClosing(freq: nat, epoch: int, iters: nat, sts: seq<Stats>, train: bool)
    requires freq > 0 && |sts| > 0 && |sts| % freq == 0
    ensures |sts| >= freq
    ensures var logs := Trace(freq, epoch, iters, sts, train).logs;
      |logs| > 0 &&
      logs[|logs| - 1] == LogOf(epoch, |sts|, iters, Total(sts[|sts| - freq..], train), sts[|sts| - 1], freq, train)
  {
    var n := |sts|;
    var init, last := sts[..n - 1], sts[n - 1];
    assert sts == init + [last];
    WindowStartStep(n, freq);
    TraceWindow(freq, epoch, iters, init, train);
    TraceSnoc(freq, epoch, iters, init, last, train);
    WindowSnoc(init, last, n - freq, train);
  }

  /** The log written at batch `hi`, a multiple of `freq`, is still there after later batches. */
  lemma TraceLogClosedAt(freq: nat, epoch: int, iters: nat, sts: seq<Stats>, train: bool, hi: nat)
    requires freq > 0 && 0 < hi <= |sts| && hi % freq == 0
    ensures hi >= freq && 0 < hi / freq <= |Trace(freq, epoch, iters, sts, train).logs|
    ensures Trace(freq, epoch, iters, sts, train).logs[hi / freq - 1]
         == LogOf(epoch, hi, iters, Total(sts[hi - freq..hi], train), sts[hi - 1], freq, train)
  {
    var p := sts[..hi];
    TraceCount(freq, epoch, iters, p, train);
    TraceClosing(freq, epoch, iters, p, train);
    TracePrefix(freq, epoch, iters, sts, hi, train);
    assert p[hi - freq..] == sts[hi - freq..hi];
    ModStep(hi, freq);
    TraceCount(freq, epoch, iters, sts, train);
    assert hi / freq <= |sts| / freq by {
      DivMonotone(hi, |sts|, freq);
    }
  }

  /** Log `m` is stamped `(m + 1) * freq` and carries the totals of batches `m * freq` up to `(m + 1) * freq`. */
  lemma TraceLogAt(freq: nat, epoch: int, iters: nat, sts: seq<Stats>, train: bool, m: nat)
    requires freq > 0 && m < |sts| / freq
    ensures (m + 1) * freq <= |sts| && m * freq + freq == (m + 1) * freq
    ensures m < |Trace(freq, epoch, iters, sts, train).logs|
    ensures Trace(freq, epoch, iters, sts, train).logs[m]
         == LogOf(epoch, (m + 1) * freq, iters, Total(sts[m * freq..(m + 1) * freq], train),
                  sts[(m + 1) * freq - 1], freq, train)
  {
    var hi := (m + 1) * freq;
    MulAtMost(m, |sts| / freq, |sts|, freq);
    MulSplit(m + 1, m, freq);
    DivModUnique(hi, freq, m + 1, 0);
    TraceLogClosedAt(freq, epoch, iters, sts, train, hi);
  }

  /** After a batch that closes a window, every accumulator is zero again. */
  lemma WindowResetAfterLog(freq: nat, epoch: int, iters: nat, sts: seq<Stats>, train: bool)
    requires freq > 0 && |sts| % freq == 0
    ensures Trace(freq, epoch, iters, sts, train).window == Zero
  {
    TraceWindow(freq, epoch, iters, sts, train);
    assert sts[WindowStart(|sts|, freq)..] == [];
  }

  /** Every batch has `correct10 <= correct20 <= batch_size`. */
  predicate Bounded(sts: seq<Stats>)
  {
    forall k :: 0 <= k < |sts| ==> sts[k].correct10 <= sts[k].correct20 <= sts[k].size
  }

  /** Any run of bounded batches is bounded. */
  lemma BoundedSlice(sts: seq<Stats>, lo: nat, hi: nat)
    requires Bounded(sts) && lo <= hi <= |sts|
    ensures Bounded(sts[lo..hi])
  {
    assert forall k :: 0 <= k < hi - lo ==> sts[lo..hi][k] == sts[lo + k];
  }

  /** Over any batches, `sum_acc_10 <= sum_acc_20 <=` the number of their examples. */
  lemma {:induction false} TotalBounds(sts: seq<Stats>, train: bool)
    requires Bounded(sts)
    ensures Total(sts, train).correct10 <= Total(sts, train).correct20 <= Examples(sts)
  {
    if |sts| > 0 {
      TotalBounds(sts[..|sts| - 1], train);
    }
  }

  /** Batches of one size have that many examples each. */
  lemma {:induction false} ExamplesUniform(sts: seq<Stats>, size: nat)
    requires forall k :: 0 <= k < |sts| ==> sts[k].size == size
    ensures Examples(sts) == |sts| * size
  {
    if |sts| > 0 {
      ExamplesUniform(sts[..|sts| - 1], size);
      assert (|sts| - 1) * size + size == |sts| * size;
    }
  }

  /** The statistics of well-shaped batches are bounded. */
  lemma StatsSeqBounded(bs: seq<Batch>)
    requires AllShaped(bs)
    ensures Bounded(StatsSeq(bs))
  {
  }

  /** At all times the open window's counts satisfy `sum_acc_10 <= sum_acc_20 <=` the examples it has seen. */
  lemma WindowBounds(freq: nat, epoch: int, iters: nat, sts: seq<Stats>, train: bool)
    requires freq > 0 && Bounded(sts)
    ensures var w := Trace(freq, epoch, iters, sts, train).window;
      w.correct10 <= w.correct20 <= Examples(sts[WindowStart(|sts|, freq)..])
  {
    var lo := WindowStart(|sts|, freq);
    var win := sts[lo..];
    BoundedSlice(sts, lo, |sts|);
    assert sts[lo..|sts|] == win;
    TotalBounds(win, train);
    TraceWindow(freq, epoch, iters, sts, train);
    assert Trace(freq, epoch, iters, sts, train).window == Total(win, train);
  }

  /**
    Log line `m` has `sum_acc_10 <= sum_acc_20 <=` the examples of its
    window; when the window's batches all have the size of the last one, that
    is the denominator `log_freq * batch_size`, so both printed accuracies lie
    in [0, 1].
   */
  lemma LogBounds(freq: nat, epoch: int, iters: nat, sts: seq<Stats>, train: bool, m: nat)
    requires freq > 0 && Bounded(sts) && m < |sts| / freq
    ensures (m + 1) * freq <= |sts| && m * freq + freq == (m + 1) * freq
    ensures m < |Trace(freq, epoch, iters, sts, train).logs|
    ensures var log := Trace(freq, epoch, iters, sts, train).logs[m];
      log.correct10 <= log.correct20 <= Examples(sts[m * freq..(m + 1) * freq])
    ensures var log := Trace(freq, epoch, iters, sts, train).logs[m];
      (forall k :: m * freq <= k < (m + 1) * freq ==> sts[k].size == sts[(m + 1) * freq - 1].size)
      ==> log.correct20 <= log.examples
  {
    TraceLogAt(freq, epoch, iters, sts, train, m);
    var lo, hi := m * freq, (m + 1) * freq;
    var win := sts[lo..hi];
    BoundedSlice(sts, lo, hi);
    TotalBounds(win, train);
    var size := sts[hi - 1].size;
    if forall k :: lo <= k < hi ==> sts[k].size == size {
      ExamplesUniform(win, size);
    }
  }

  /** The learning rate of every parameter group after at least one batch. */
  function Decayed(groups: seq<real>, lr: real): (r: seq<real>)
    ensures |r| == |groups|
    ensures forall g :: 0 <= g < |r| ==> r[g] == lr * 0.9
  {
    seq(|groups|, _ => lr * 0.9)
  }

  /** Decaying twice from the same base is decaying once: the rate never compounds. */
  lemma DecayedDoesNotCompound(groups: seq<real>, lr: real)
    ensures Decayed(Decayed(groups, lr), lr) == Decayed(groups, lr)
    ensures forall g :: 0 <= g < |groups| ==> Decayed(groups, lr)[g] == lr * 0.9
  {
  }

  /** `file_path + ".ep%d" % epoch` */
  function SavePath(filePath: string, epoch: int): (path: string)
    ensures |path| > |filePath| + 3
    ensures path[..|filePath|] == filePath && path[|filePath|..|filePath| + 3] == ".ep"
  {
    filePath + ".ep" + IntToDecimal(epoch)
  }

  /** The epoch can be read back from the path, so distinct epochs never share a file. */
  lemma SavePathEpoch(filePath: string, epoch: int, other: int)
    ensures ParseDecimal(SavePath(filePath, epoch)[|filePath| + 3..]) == Some(epoch)
    ensures other != epoch ==> SavePath(filePath, other) != SavePath(filePath, epoch)
  {
    assert SavePath(filePath, epoch)[|filePath| + 3..] == IntToDecimal(epoch);
    assert SavePath(filePath, other)[|filePath| + 3..] == IntToDecimal(other);
    DecimalRoundTrip(epoch);
    DecimalRoundTrip(other);
  }

  /**
    The trainer's state that `iterate` and `save` touch: the base learning rate,
    the logging period and the learning rates of the optimizer's parameter
    groups (Adam over all the model's parameters: a single group).
   */
  class ReactivityTrainer {
    const lr: real
    const logFreq: nat
    var groupLrs: seq<real>

    constructor (lr: real, logFreq: nat)
      requires logFreq > 0
      ensures this.lr == lr && this.logFreq == logFreq
      ensures groupLrs == [lr]
    {
      this.lr := lr;
      this.logFreq := logFreq;
      groupLrs := [lr];
    }

    /** The `param_group['lr'] = self.lr * 0.9` loop. */
    method SetLearningRates()
      modifies this`groupLrs
      ensures groupLrs == Decayed(old(groupLrs), lr)
    {
      var g := 0;
      while g < |groupLrs|
        invariant 0 <= g <= |groupLrs| == |old(groupLrs)|
        invariant forall h :: 0 <= h < g ==> groupLrs[h] == lr * 0.9
      {
        groupLrs := groupLrs[g := lr * 0.9];
        g := g + 1;
      }
    }

    /**
      `iterate(epoch, data_loader, train)`. Each batch's statistics are a
      function of that batch alone (`StatsOf`), so they are computed up
      front and `Accumulate` runs the logging loop over them.
     */
    method Iterate(epoch: int, batches: seq<Batch>, train: bool) returns (logs: seq<Log>)
      requires logFreq > 0 && AllShaped(batches)
      modifies this`groupLrs
      ensures logs == Trace(logFreq, epoch, |batches|, StatsSeq(batches), train).logs
      ensures groupLrs == if |batches| == 0 then old(groupLrs) else Decayed(old(groupLrs), lr)
    {
      var sts := StatsSeq(batches);
      logs := Accumulate(epoch, |batches|, sts, train);
    }

    /**
      The body of `iterate`'s loop over the per-batch statistics: the window
      sums, a log and a reset every `log_freq` batches, and the learning
      rates reset from the base rate after every batch, whether training or
      evaluating.
     */
    method Accumulate(epoch: int, iters: nat, sts: seq<Stats>, train: bool) returns (logs: seq<Log>)
      requires logFreq > 0
      modifies this`groupLrs
      ensures logs == Trace(logFreq, epoch, iters, sts, train).logs
      ensures groupLrs == if |sts| == 0 then old(groupLrs) else Decayed(old(groupLrs), lr)
    {
      var avgLoss, sumGnorm := 0.0, 0.0;
      var sumAcc10: nat, sumAcc20: nat := 0, 0;
      logs := [];
      var i := 0;
      while i < |sts|
        invariant 0 <= i <= |sts|
        invariant Run(logs, Sums(avgLoss, sumAcc10, sumAcc20, sumGnorm))
               == Trace(logFreq, epoch, iters, sts[..i], train)
        invariant groupLrs == if i == 0 then old(groupLrs) else Decayed(old(groupLrs), lr)
      {
        var st := sts[i];
        assert sts[..i + 1] == sts[..i] + [st];
        TraceSnoc(logFreq, epoch, iters, sts[..i], st, train);
        avgLoss := avgLoss + st.loss;
        if train {
          sumGnorm := sumGnorm + st.gradNorm;
        }
        sumAcc10 := sumAcc10 + st.correct10;
        sumAcc20 := sumAcc20 + st.correct20;
        if (i + 1) % logFreq == 0 {
          logs := logs + [LogOf(epoch, i + 1, iters, Sums(avgLoss, sumAcc10, sumAcc20, sumGnorm), st, logFreq, train)];
          sumAcc10, sumAcc20, sumGnorm := 0, 0, 0.0;
          avgLoss := 0.0;
        }
        SetLearningRates();
        i := i + 1;
      }
      assert sts[..i] == sts;
    }

    /** `save`: the path the model is written to (the writing is not modelled). */
    method Save(epoch: int, filePath: string) returns (outputPath: string)
      ensures outputPath == SavePath(filePath, epoch)
    {
      outputPath := SavePath(filePath, epoch);
    }
  }
}
