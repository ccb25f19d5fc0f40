/**
  The two frequency tables of `RxnDataset.create_vocab` and the ranked token
  lists built from them (rxntorch/containers/dataset.py). A table is a Python
  dict, which remembers the order in which keys were first inserted; that order
  decides ties in the ranking.
 */
module Vocabulary {
  import opened Tokens
  import opened Sorting

  /** A frequency table: its keys in first-insertion order, and each key's count. */
  datatype Vocab = Vocab(order: seq<Token>, count: map<Token, nat>)

  /** The empty dict the dataset starts with. */
  const EmptyVocab := Vocab([], map[])

  /** The three reserved tokens, at IDs 0, 1 and 2. */
  const Pad: Token := "_PAD"
  const Go: Token := "_GO"
  const Eos: Token := "_EOS"
  const StartVocab: seq<Token> := [Pad, Go, Eos]
  const PadId := 0
  const GoId := 1
  const EosId := 2

  ghost predicate Distinct<T>(s: seq<T>)
  {
    forall i, j :: 0 <= i < j < |s| ==> s[i] != s[j]
  }

  /** The keys are listed once each, and every stored count is at least 1. */
  ghost predicate WellFormed(v: Vocab)
  {
    && Distinct(v.order)
    && (forall t :: t in v.count <==> t in v.order)
    && (forall t :: t in v.count ==> v.count[t] >= 1)
  }

  /** How often `t` was counted (0 for a token that is not a key). */
  function Freq(v: Vocab, t: Token): nat
  {
    if t in v.count then v.count[t] else 0
  }

  /** One `if t in d: d[t] += 1 else: d[t] = 1`. */
  function Bump(v: Vocab, t: Token): (r: Vocab)
    ensures forall u :: Freq(r, u) == Freq(v, u) + (if u == t then 1 else 0)
    ensures |v.order| <= |r.order| && r.order[..|v.order|] == v.order
  {
    if t in v.count then Vocab(v.order, v.count[t := v.count[t] + 1])
    else Vocab(v.order + [t], v.count[t := 1])
  }

  lemma BumpWellFormed(v: Vocab, t: Token)
    requires WellFormed(v)
    ensures WellFormed(Bump(v, t))
  {
    if t !in v.count {
      var r := Bump(v, t);
      assert r.order == v.order + [t];
      forall i, j | 0 <= i < j < |r.order| ensures r.order[i] != r.order[j] {
        if j == |v.order| {
          assert r.order[i] == v.order[i];
        }
      }
    }
  }

  /** The table after counting every token of `ts`, left to right. */
  function Tallied(v: Vocab, ts: seq<Token>): (r: Vocab)
    ensures |v.order| <= |r.order| <= |v.order| + |ts|
  {
    if |ts| == 0 then v else Bump(Tallied(v, ts[..|ts| - 1]), ts[|ts| - 1])
  }

  /** Counting adds the number of occurrences of each token, and keeps the table valid. */
  lemma {:induction false} TalliedCounts(v: Vocab, ts: seq<Token>)
    requires WellFormed(v)
    ensures WellFormed(Tallied(v, ts))
    ensures forall t :: Freq(Tallied(v, ts), t) == Freq(v, t) + multiset(ts)[t]
  {
    if |ts| > 0 {
      var init := ts[..|ts| - 1];
      assert ts == init + [ts[|ts| - 1]];
      TalliedCounts(v, init);
      BumpWellFormed(Tallied(v, init), ts[|ts| - 1]);
    }
  }

  /** Keys already present keep their place; new keys are appended after them. */
  lemma {:induction false} TalliedExtendsOrder(v: Vocab, ts: seq<Token>)
    ensures |v.order| <= |Tallied(v, ts).order|
    ensures Tallied(v, ts).order[..|v.order|] == v.order
  {
    if |ts| > 0 {
      var w := Tallied(v, ts[..|ts| - 1]);
      TalliedExtendsOrder(v, ts[..|ts| - 1]);
      assert Bump(w, ts[|ts| - 1]).order[..|w.order|] == w.order;
      assert Tallied(v, ts).order[..|v.order|] == w.order[..|v.order|];
    }
  }

  /** Counting two token lists one after the other is counting their concatenation. */
  lemma {:induction false} TalliedAppend(v: Vocab, a: seq<Token>, b: seq<Token>)
    ensures Tallied(v, a + b) == Tallied(Tallied(v, a), b)
  {
    if |b| == 0 {
      assert a + b == a;
    } else {
      var init := b[..|b| - 1];
      assert (a + b)[..|a + b| - 1] == a + init;
      TalliedAppend(v, a, init);
    }
  }

  /** The counting loop `for t in tokens: ...` of `create_vocab`. */
  method Tally(v: Vocab, ts: seq<Token>) returns (r: Vocab)
    requires WellFormed(v)
    ensures r == Tallied(v, ts)
    ensures WellFormed(r)
    ensures forall t :: Freq(r, t) == Freq(v, t) + multiset(ts)[t]
  {
    r := v;
    var i := 0;
    while i < |ts|
      invariant 0 <= i <= |ts|
      invariant r == Tallied(v, ts[..i])
    {
      assert ts[..i + 1][..i] == ts[..i];
      var t := ts[i];
      ghost var next := Bump(r, t);
      assert next == Tallied(v, ts[..i + 1]);
      if t in r.count {
        r := Vocab(r.order, r.count[t := r.count[t] + 1]);
      } else {
        r := Vocab(r.order + [t], r.count[t := 1]);
      }
      assert r == next;
      i := i + 1;
    }
    assert ts[..i] == ts;
    TalliedCounts(v, ts);
  }

  /** The sort key `self.vocab.get` of the ranking. */
  function FreqKey(v: Vocab): Token -> real
  {
    t => Freq(v, t) as real
  }

  /** `sorted(vocab, key=vocab.get, reverse=True)`. */
  function Ranked(v: Vocab): (r: seq<Token>)
    ensures |r| == |v.order|
  {
    assert |multiset(SortDesc(v.order, FreqKey(v)))| == |multiset(v.order)|;
    SortDesc(v.order, FreqKey(v))
  }

  /** `_START_VOCAB + sorted(...)`: the list whose positions are the token IDs. */
  function TokenList(v: Vocab): (r: seq<Token>)
    ensures |r| == 3 + |v.order|
    ensures r[PadId] == Pad && r[GoId] == Go && r[EosId] == Eos
  {
    StartVocab + Ranked(v)
  }

  lemma {:induction false} DistinctCardinality<T>(s: seq<T>)
    requires Distinct(s)
    ensures |set x | x in s| == |s|
  {
    if |s| > 0 {
      var init := s[..|s| - 1];
      DistinctCardinality(init);
      assert (set x | x in s) == (set x | x in init) + {s[|s| - 1]};
      assert s[|s| - 1] !in init;
    }
  }

  /** In a list without repetitions, each element occurs exactly once. */
  lemma DistinctOccursOnce<T>(s: seq<T>, k: nat)
    requires Distinct(s) && k < |s|
    ensures multiset(s)[s[k]] == 1
  {
    var t := s[k];
    assert s == s[..k] + [t] + s[k + 1..];
    assert t !in s[..k];
    assert t !in s[k + 1..];
    assert multiset(s) == multiset(s[..k]) + multiset{t} + multiset(s[k + 1..]);
  }

  /**
    The ranked list starts with the reserved tokens, holds every counted token
    exactly once after them and nothing else, so its length is 3 plus the
    number of distinct tokens.
   */
  lemma TokenListShape(v: Vocab)
    requires WellFormed(v)
    ensures |TokenList(v)| == 3 + |v.count|
    ensures TokenList(v)[PadId] == Pad && TokenList(v)[GoId] == Go && TokenList(v)[EosId] == Eos
    ensures forall t :: t in v.count ==> multiset(TokenList(v)[3..])[t] == 1
    ensures forall t :: t in TokenList(v)[3..] ==> t in v.count
  {
    var r := Ranked(v);
    assert TokenList(v)[3..] == r;
    assert multiset(r) == multiset(v.order);
    assert |r| == |v.order|;
    DistinctCardinality(v.order);
    assert v.count.Keys == set x | x in v.order;
    forall t | t in v.count ensures multiset(r)[t] == 1 {
      var k :| 0 <= k < |v.order| && v.order[k] == t;
      DistinctOccursOnce(v.order, k);
    }
    forall t | t in r ensures t in v.count {
      assert t in multiset(r);
      assert t in multiset(v.order);
    }
  }

  /** The ranked part is in non-increasing order of frequency. */
  lemma RankedByFrequency(v: Vocab)
    ensures forall i, j :: 0 <= i < j < |Ranked(v)| ==> Freq(v, Ranked(v)[i]) >= Freq(v, Ranked(v)[j])
  {
    SortDescIsDescending(v.order, FreqKey(v));
    var r := Ranked(v);
    forall i, j | 0 <= i < j < |r| ensures Freq(v, r[i]) >= Freq(v, r[j]) {
      assert FreqKey(v)(r[i]) >= FreqKey(v)(r[j]);
    }
  }

  /** Tokens of equal frequency `n` keep their first-insertion order. */
  lemma RankedKeepsInsertionOrderOnTies(v: Vocab, n: nat)
    ensures KeyClass(Ranked(v), FreqKey(v), n as real) == KeyClass(v.order, FreqKey(v), n as real)
  {
    SortDescIsStable(v.order, FreqKey(v), n as real);
  }
}
