/**
  The reaction dataset of rxntorch/containers/dataset.py: filtering reactions
  by molecule count, building the two vocabularies (`create_vocab`) and turning
  reactions into ID sequences split into a training and a dev shard
  (`tokenize_data`).
 */
module Dataset {
  import opened Wrappers
  import opened Tokens
  import opened Vocabulary

  /**
    A reaction (the `Rxn` class): its SMILES string, the SMILES of its three
    sides, and the SMILES of each molecule on each side.
   */
  datatype Rxn = Rxn(
    smile: string,
    reactantsSmile: string,
    reagentsSmile: string,
    productsSmile: string,
    reactants: seq<string>,
    reagents: seq<string>,
    products: seq<string>)

  /** The reactant-side token list (reactants, '>', reagents) and the product token list. */
  datatype Sides = Sides(reactantSide: seq<Token>, productSide: seq<Token>)

  /** One emitted example: the two ID sequences and the reaction string. */
  datatype Record = Record(reactantIds: seq<nat>, productIds: seq<nat>, smile: string)

  /** What the body of the `try` in `tokenize_data` does with one reaction. */
  datatype Tokenized =
    | ParseFailed
    | LookupFailed(lens: (nat, nat))
    | Encoded(lens: (nat, nat), record: Record)

  /** A shard entry `(reactants, products)`: a record without its string. */
  type Example = (seq<nat>, seq<nat>)

  // ---------------------------------------------------------------------------
  // remove_max_reactants, remove_max_products

  /** A list comprehension `[x for x in s if keep(x)]`. */
  function Filter<T>(s: seq<T>, keep: T -> bool): (r: seq<T>)
    ensures |r| <= |s|
    ensures forall i :: 0 <= i < |r| ==> keep(r[i])
  {
    if |s| == 0 then [] else (if keep(s[0]) then [s[0]] else []) + Filter(s[1..], keep)
  }

  lemma {:induction false} FilterAppend<T>(a: seq<T>, b: seq<T>, keep: T -> bool)
    ensures Filter(a + b, keep) == Filter(a, keep) + Filter(b, keep)
  {
    if |a| > 0 {
      assert (a + b)[1..] == a[1..] + b;
      FilterAppend(a[1..], b, keep);
    } else {
      assert a + b == b;
    }
  }

  lemma {:induction false} FilterMembers<T>(s: seq<T>, keep: T -> bool)
    ensures forall x :: x in Filter(s, keep) <==> x in s && keep(x)
  {
    if |s| > 0 {
      FilterMembers(s[1..], keep);
      assert s == [s[0]] + s[1..];
    }
  }

  function FewReactants(maxReactants: int): Rxn -> bool
  {
    (rxn: Rxn) => |rxn.reactants| <= maxReactants
  }

  function FewProducts(maxProducts: int): Rxn -> bool
  {
    (rxn: Rxn) => |rxn.products| <= maxProducts
  }

  /**
    `remove_max_reactants` keeps exactly the reactions with at most
    `maxReactants` reactants, in their original order: the filter keeps or
    drops each reaction on its own and distributes over concatenation.
   */
  lemma KeepReactantsAtMost(rs: seq<Rxn>, maxReactants: int)
    ensures forall x :: x in Filter(rs, FewReactants(maxReactants))
                <==> x in rs && |x.reactants| <= maxReactants
    ensures forall x :: Filter([x], FewReactants(maxReactants))
                == if |x.reactants| <= maxReactants then [x] else []
    ensures forall a, b :: Filter(a + b, FewReactants(maxReactants))
                == Filter(a, FewReactants(maxReactants)) + Filter(b, FewReactants(maxReactants))
  {
    FilterMembers(rs, FewReactants(maxReactants));
    forall a, b {
      FilterAppend(a, b, FewReactants(maxReactants));
    }
    forall x ensures Filter([x], FewReactants(maxReactants))
                == if |x.reactants| <= maxReactants then [x] else [] {
      assert [x][1..] == [];
    }
  }

  /** The same three facts for `remove_max_products`. */
  lemma KeepProductsAtMost(rs: seq<Rxn>, maxProducts: int)
    ensures forall x :: x in Filter(rs, FewProducts(maxProducts))
                <==> x in rs && |x.products| <= maxProducts
    ensures forall x :: Filter([x], FewProducts(maxProducts))
                == if |x.products| <= maxProducts then [x] else []
    ensures forall a, b :: Filter(a + b, FewProducts(maxProducts))
                == Filter(a, FewProducts(maxProducts)) + Filter(b, FewProducts(maxProducts))
  {
    FilterMembers(rs, FewProducts(maxProducts));
    forall a, b {
      FilterAppend(a, b, FewProducts(maxProducts));
    }
    forall x ensures Filter([x], FewProducts(maxProducts))
                == if |x.products| <= maxProducts then [x] else [] {
      assert [x][1..] == [];
    }
  }

  // ---------------------------------------------------------------------------
  // The token sides of one reaction

  /** `reactant_list += '>'; reactant_list += reagent_list`, once all three lists exist. */
  function CombineSides(reactants: Option<seq<Token>>, reagents: Option<seq<Token>>,
                        products: Option<seq<Token>>): (r: Option<Sides>)
    ensures r.Some? <==> reactants.Some? && reagents.Some? && products.Some?
    ensures r.Some? ==>
      var n := |reactants.value|;
      && |r.value.reactantSide| == n + 1 + |reagents.value|
      && r.value.reactantSide[..n] == reactants.value
      && r.value.reactantSide[n] == Gt
      && r.value.reactantSide[n + 1..] == reagents.value
      && r.value.productSide == products.value
  {
    if reactants.Some? && reagents.Some? && products.Some?
    then Some(Sides(reactants.value + [Gt] + reagents.value, products.value))
    else None
  }

  /**
    The sides as `create_vocab` builds them, from the '.'-separated side
    strings: they exist exactly when every piece of every side parses
    (splitting never yields an empty list).
   */
  function VocabSides(parse: Parser, rxn: Rxn): (r: Option<Sides>)
    ensures r.Some? <==>
      && AllParse(parse, SplitDots(rxn.reactantsSmile))
      && AllParse(parse, SplitDots(rxn.reagentsSmile))
      && AllParse(parse, SplitDots(rxn.productsSmile))
  {
    CombineSides(JoinedTokens(parse, SplitDots(rxn.reactantsSmile)),
                 JoinedTokens(parse, SplitDots(rxn.reagentsSmile)),
                 JoinedTokens(parse, SplitDots(rxn.productsSmile)))
  }

  /**
    The sides as `tokenize_data` builds them, from the molecule lists: they
    exist exactly when every side has a molecule and every molecule parses.
   */
  function TokenSides(parse: Parser, rxn: Rxn): (r: Option<Sides>)
    ensures r.Some? <==>
      && |rxn.reactants| > 0 && |rxn.reagents| > 0 && |rxn.products| > 0
      && AllParse(parse, rxn.reactants) && AllParse(parse, rxn.reagents)
      && AllParse(parse, rxn.products)
  {
    CombineSides(JoinedTokens(parse, rxn.reactants),
                 JoinedTokens(parse, rxn.reagents),
                 JoinedTokens(parse, rxn.products))
  }

  /** Every molecule of the list parses. */
  ghost predicate AllParse(parse: Parser, mols: seq<string>)
  {
    forall i :: 0 <= i < |mols| ==> parse(mols[i]).Some?
  }

  /**
    In `create_vocab` the reactant side is the reactants' token lists joined
    by '.', then '>', then the reagents' token lists joined by '.'; the product
    side is the products' token lists joined by '.'.
   */
  lemma VocabSidesShape(parse: Parser, rxn: Rxn)
    ensures VocabSides(parse, rxn).Some? ==>
      && VocabSides(parse, rxn).value.reactantSide
           == Join(ParseAll(parse, SplitDots(rxn.reactantsSmile)).value, [Dot]) + [Gt]
              + Join(ParseAll(parse, SplitDots(rxn.reagentsSmile)).value, [Dot])
      && VocabSides(parse, rxn).value.productSide
           == Join(ParseAll(parse, SplitDots(rxn.productsSmile)).value, [Dot])
  {
  }

  /**
    A reaction without reagents fails in `tokenize_data`:
    `reagent_list.pop()` is called on an empty list. Otherwise the sides have
    the same join form as in `create_vocab`.
   */
  lemma TokenSidesShape(parse: Parser, rxn: Rxn)
    ensures |rxn.reagents| == 0 ==> TokenSides(parse, rxn) == None
    ensures TokenSides(parse, rxn).Some? ==>
      && TokenSides(parse, rxn).value.reactantSide
           == Join(ParseAll(parse, rxn.reactants).value, [Dot]) + [Gt]
              + Join(ParseAll(parse, rxn.reagents).value, [Dot])
      && TokenSides(parse, rxn).value.productSide == Join(ParseAll(parse, rxn.products).value, [Dot])
  {
  }

  // ---------------------------------------------------------------------------
  // create_vocab

  /** The sides `create_vocab` extracts from a reaction, as a function of the reaction. */
  function VocabSidesOf(parse: Parser): Rxn -> Option<Sides>
  {
    (rxn: Rxn) => VocabSides(parse, rxn)
  }

  /** The concatenated reactant-side tokens of the reactions that did not fail. */
  function ReactantCorpus(sides: Rxn -> Option<Sides>, rs: seq<Rxn>): seq<Token>
  {
    if |rs| == 0 then []
    else
      ReactantCorpus(sides, rs[..|rs| - 1])
      + match sides(rs[|rs| - 1]) case Some(s) => s.reactantSide case None => []
  }

  /** The concatenated product tokens of the reactions that did not fail. */
  function ProductCorpus(sides: Rxn -> Option<Sides>, rs: seq<Rxn>): seq<Token>
  {
    if |rs| == 0 then []
    else
      ProductCorpus(sides, rs[..|rs| - 1])
      + match sides(rs[|rs| - 1]) case Some(s) => s.productSide case None => []
  }

  /** `error_rsmi`: each failing reaction's index mapped to its reaction string. */
  function VocabErrors(sides: Rxn -> Option<Sides>, rs: seq<Rxn>): (e: map<nat, string>)
    ensures forall i :: i in e <==> 0 <= i < |rs| && sides(rs[i]).None?
    ensures forall i :: i in e ==> e[i] == rs[i].smile
  {
    map i | 0 <= i < |rs| && sides(rs[i]).None? :: rs[i].smile
  }

  lemma {:induction false} ReactantCorpusAppend(sides: Rxn -> Option<Sides>, a: seq<Rxn>, b: seq<Rxn>)
    ensures ReactantCorpus(sides, a + b) == ReactantCorpus(sides, a) + ReactantCorpus(sides, b)
  {
    if |b| == 0 {
      assert a + b == a;
    } else {
      var b' := b[..|b| - 1];
      var last := match sides(b[|b| - 1]) case Some(s) => s.reactantSide case None => [];
      assert (a + b)[..|a + b| - 1] == a + b';
      assert (a + b)[|a + b| - 1] == b[|b| - 1];
      assert ReactantCorpus(sides, a + b) == ReactantCorpus(sides, a + b') + last;
      assert ReactantCorpus(sides, b) == ReactantCorpus(sides, b') + last;
      ReactantCorpusAppend(sides, a, b');
      assert ReactantCorpus(sides, a) + ReactantCorpus(sides, b') + last
          == ReactantCorpus(sides, a) + (ReactantCorpus(sides, b') + last);
    }
  }

  lemma {:induction false} ProductCorpusAppend(sides: Rxn -> Option<Sides>, a: seq<Rxn>, b: seq<Rxn>)
    ensures ProductCorpus(sides, a + b) == ProductCorpus(sides, a) + ProductCorpus(sides, b)
  {
    if |b| == 0 {
      assert a + b == a;
    } else {
      var b' := b[..|b| - 1];
      var last := match sides(b[|b| - 1]) case Some(s) => s.productSide case None => [];
      assert (a + b)[..|a + b| - 1] == a + b';
      assert (a + b)[|a + b| - 1] == b[|b| - 1];
      assert ProductCorpus(sides, a + b) == ProductCorpus(sides, a + b') + last;
      assert ProductCorpus(sides, b) == ProductCorpus(sides, b') + last;
      ProductCorpusAppend(sides, a, b');
      assert ProductCorpus(sides, a) + ProductCorpus(sides, b') + last
          == ProductCorpus(sides, a) + (ProductCorpus(sides, b') + last);
    }
  }

  lemma VocabStep(sides: Rxn -> Option<Sides>, rs: seq<Rxn>, i: nat)
    requires i < |rs|
    ensures ReactantCorpus(sides, rs[..i + 1])
         == ReactantCorpus(sides, rs[..i]) + match sides(rs[i]) case Some(s) => s.reactantSide case None => []
    ensures ProductCorpus(sides, rs[..i + 1])
         == ProductCorpus(sides, rs[..i]) + match sides(rs[i]) case Some(s) => s.productSide case None => []
    ensures VocabErrors(sides, rs[..i + 1])
         == if sides(rs[i]).None? then VocabErrors(sides, rs[..i])[i := rs[i].smile]
            else VocabErrors(sides, rs[..i])
  {
    assert rs[..i + 1][..i] == rs[..i];
    var e, e' := VocabErrors(sides, rs[..i]), VocabErrors(sides, rs[..i + 1]);
    if sides(rs[i]).None? {
      assert e' == e[i := rs[i].smile];
    } else {
      assert e' == e;
    }
  }

  /** One iteration of `create_vocab`'s loop, in terms of the tables it leaves behind. */
  lemma CreateVocabStep(sides: Rxn -> Option<Sides>, rs: seq<Rxn>, i: nat, v0: Vocab, w0: Vocab)
    requires i < |rs|
    ensures sides(rs[i]).Some? ==>
      && Tallied(Tallied(v0, ReactantCorpus(sides, rs[..i])), sides(rs[i]).value.reactantSide)
         == Tallied(v0, ReactantCorpus(sides, rs[..i + 1]))
      && Tallied(Tallied(w0, ProductCorpus(sides, rs[..i])), sides(rs[i]).value.productSide)
         == Tallied(w0, ProductCorpus(sides, rs[..i + 1]))
    ensures sides(rs[i]).None? ==>
      && ReactantCorpus(sides, rs[..i + 1]) == ReactantCorpus(sides, rs[..i])
      && ProductCorpus(sides, rs[..i + 1]) == ProductCorpus(sides, rs[..i])
      && VocabErrors(sides, rs[..i + 1]) == VocabErrors(sides, rs[..i])[i := rs[i].smile]
    ensures sides(rs[i]).Some? ==> VocabErrors(sides, rs[..i + 1]) == VocabErrors(sides, rs[..i])
  {
    VocabStep(sides, rs, i);
    if sides(rs[i]).Some? {
      var s := sides(rs[i]).value;
      TalliedAppend(v0, ReactantCorpus(sides, rs[..i]), s.reactantSide);
      TalliedAppend(w0, ProductCorpus(sides, rs[..i]), s.productSide);
    } else {
      assert ReactantCorpus(sides, rs[..i]) + [] == ReactantCorpus(sides, rs[..i]);
      assert ProductCorpus(sides, rs[..i]) + [] == ProductCorpus(sides, rs[..i]);
    }
  }

  /**
    A reaction that fails contributes nothing to either table: the corpora are
    those of the other reactions. Its index is recorded with its string.
   */
  lemma FailingReactionCountsNothing(sides: Rxn -> Option<Sides>, a: seq<Rxn>, rxn: Rxn, b: seq<Rxn>)
    requires sides(rxn).None?
    ensures ReactantCorpus(sides, a + [rxn] + b) == ReactantCorpus(sides, a + b)
    ensures ProductCorpus(sides, a + [rxn] + b) == ProductCorpus(sides, a + b)
    ensures VocabErrors(sides, a + [rxn] + b)[|a|] == rxn.smile
  {
    ReactantCorpusAppend(sides, a + [rxn], b);
    ReactantCorpusAppend(sides, a, [rxn]);
    ReactantCorpusAppend(sides, a, b);
    ProductCorpusAppend(sides, a + [rxn], b);
    ProductCorpusAppend(sides, a, [rxn]);
    ProductCorpusAppend(sides, a, b);
    assert [rxn][..0] == [];
    assert (a + [rxn] + b)[|a|] == rxn;
  }

  /**
    Starting from an empty table, every table entry counts its token's
    occurrences on the reactant side (respectively product side) of the
    reactions that did not fail, and only tokens that occur there are keys.
   */
  lemma VocabCounts(sides: Rxn -> Option<Sides>, rs: seq<Rxn>)
    ensures forall t :: Freq(Tallied(EmptyVocab, ReactantCorpus(sides, rs)), t)
                        == multiset(ReactantCorpus(sides, rs))[t]
    ensures forall t :: Freq(Tallied(EmptyVocab, ProductCorpus(sides, rs)), t)
                        == multiset(ProductCorpus(sides, rs))[t]
    ensures forall t :: t in Tallied(EmptyVocab, ReactantCorpus(sides, rs)).count
                        <==> t in ReactantCorpus(sides, rs)
    ensures forall t :: t in Tallied(EmptyVocab, ProductCorpus(sides, rs)).count
                        <==> t in ProductCorpus(sides, rs)
  {
    var rc, pc := ReactantCorpus(sides, rs), ProductCorpus(sides, rs);
    TalliedCounts(EmptyVocab, rc);
    TalliedCounts(EmptyVocab, pc);
    forall t ensures t in Tallied(EmptyVocab, rc).count <==> t in rc {
      assert Freq(Tallied(EmptyVocab, rc), t) == multiset(rc)[t];
    }
    forall t ensures t in Tallied(EmptyVocab, pc).count <==> t in pc {
      assert Freq(Tallied(EmptyVocab, pc), t) == multiset(pc)[t];
    }
  }

  /**
    As written, `create_vocab` reads `self.reactants[i]`, an attribute the
    dataset never defines, so every reaction raises inside the `try`.
   */
  function AsWrittenVocabSides(): (r: Rxn -> Option<Sides>)
    ensures forall rxn: Rxn :: r(rxn).None?
  {
    (rxn: Rxn) => None
  }

  /** As written, nothing is ever counted and every reaction is reported as an error. */
  lemma {:induction false} AsWrittenCreateVocabCountsNothing(rs: seq<Rxn>)
    ensures ReactantCorpus(AsWrittenVocabSides(), rs) == []
    ensures ProductCorpus(AsWrittenVocabSides(), rs) == []
    ensures forall i :: i in VocabErrors(AsWrittenVocabSides(), rs) <==> 0 <= i < |rs|
  {
    if |rs| > 0 {
      AsWrittenCreateVocabCountsNothing(rs[..|rs| - 1]);
    }
  }

  lemma SplitSingle(c: char)
    requires c != '.'
    ensures SplitDots([c]) == [[c]]
  {
    var rest := SplitDots([c][1..]);
    assert [c][1..] == "";
    assert rest == [""];
    assert [c] + rest[0] == [c];
    assert rest[1..] == [];
    assert SplitDots([c]) == [[c] + rest[0]] + rest[1..];
  }

  /** A parser that makes each molecule string a single token. */
  function EchoParser(): Parser
  {
    s => Some([s])
  }

  /** A reaction with one reactant, one reagent and one product, all single atoms. */
  const SampleRxn := Rxn("C>O>C", "C", "O", "C", ["C"], ["O"], ["C"])

  lemma ParseSingle(m: string)
    ensures ParseAll(EchoParser(), [m]) == Some([[m]])
    ensures JoinedTokens(EchoParser(), [m]) == Some([m])
  {
    assert [m][..0] == [];
    assert ParseAll(EchoParser(), []) == Some([]);
    assert EchoParser()(m) == Some([m]);
    assert [] + [[m]] == [[m]];
    assert ParseAll(EchoParser(), [m]) == Some([] + [[m]]);
  }

  lemma SamplePiece(c: char)
    requires c != '.'
    ensures JoinedTokens(EchoParser(), SplitDots([c])) == Some([[c]])
  {
    SplitSingle(c);
    ParseSingle([c]);
  }

  lemma SampleVocabSides()
    ensures VocabSides(EchoParser(), SampleRxn) == Some(Sides(["C", Gt, "O"], ["C"]))
  {
    SamplePiece('C');
    SamplePiece('O');
    assert SampleRxn.reactantsSmile == ['C'];
    assert SampleRxn.reagentsSmile == ['O'];
    assert ["C"] + [Gt] + ["O"] == ["C", Gt, "O"];
  }

  /**
    On a one-reaction dataset that the parser accepts, the intended code counts
    the reaction's tokens and reports no error; as written it reports the
    reaction as an error.
   */
  lemma AsWrittenCreateVocabDiffers()
    ensures VocabErrors(VocabSidesOf(EchoParser()), [SampleRxn]) == map[]
    ensures ReactantCorpus(VocabSidesOf(EchoParser()), [SampleRxn]) == ["C", Gt, "O"]
    ensures VocabErrors(AsWrittenVocabSides(), [SampleRxn]) == map[0 := SampleRxn.smile]
  {
    SampleVocabSides();
    assert VocabSidesOf(EchoParser())(SampleRxn).Some?;
    assert [SampleRxn][..0] == [];
    assert ReactantCorpus(VocabSidesOf(EchoParser()), [SampleRxn]) == [] + ["C", Gt, "O"];
  }

  // ---------------------------------------------------------------------------
  // tokenize_data

  /** One reaction of `tokenize_data` against the given ranked token lists. */
  function TokenizeRxn(parse: Parser, reactantList: seq<Token>, productList: seq<Token>, rxn: Rxn)
    : (o: Tokenized)
    ensures o.ParseFailed? <==> TokenSides(parse, rxn).None?
    ensures !o.ParseFailed? ==> o.lens == (|TokenSides(parse, rxn).value.reactantSide|,
                                           |TokenSides(parse, rxn).value.productSide|)
    ensures o.LookupFailed? <==>
      && TokenSides(parse, rxn).Some?
      && ((exists i :: 0 <= i < |TokenSides(parse, rxn).value.reactantSide|
                       && TokenSides(parse, rxn).value.reactantSide[i] !in reactantList)
          || (exists i :: 0 <= i < |TokenSides(parse, rxn).value.productSide|
                       && TokenSides(parse, rxn).value.productSide[i] !in productList))
    ensures o.Encoded? ==>
      && o.record.smile == rxn.smile
      && (forall i :: 0 <= i < |o.record.reactantIds| ==> o.record.reactantIds[i] < |reactantList|)
      && (forall i :: 0 <= i < |o.record.productIds| ==> o.record.productIds[i] < |productList|)
      && Decode(reactantList, o.record.reactantIds) == TokenSides(parse, rxn).value.reactantSide
      && Decode(productList, o.record.productIds) == TokenSides(parse, rxn).value.productSide
  {
    match TokenSides(parse, rxn)
    case None => ParseFailed
    case Some(s) =>
      var lens := (|s.reactantSide|, |s.productSide|);
      var r := Encode(reactantList, s.reactantSide);
      var p := Encode(productList, s.productSide);
      if r.Some? && p.Some? then Encoded(lens, Record(r.value, p.value, rxn.smile))
      else LookupFailed(lens)
  }

  function TokenizeRxnOf(parse: Parser, reactantList: seq<Token>, productList: seq<Token>)
    : Rxn -> Tokenized
  {
    (rxn: Rxn) => TokenizeRxn(parse, reactantList, productList, rxn)
  }

  /**
    As written, `tokenize_data` looks up `self.reactant_token_list`, which is
    never assigned (the lists are stored as `reactants_token_list` and
    `products_token_list`): every reaction whose sides were built raises there,
    after its lengths were appended to `token_len`.
   */
  function AsWrittenTokenizeRxn(parse: Parser): (r: Rxn -> Tokenized)
    ensures forall rxn: Rxn :: !r(rxn).Encoded?
    ensures forall rxn: Rxn :: r(rxn).ParseFailed? <==> TokenSides(parse, rxn).None?
  {
    (rxn: Rxn) =>
      match TokenSides(parse, rxn)
      case None => ParseFailed
      case Some(s) => LookupFailed((|s.reactantSide|, |s.productSide|))
  }

  /** `token_len`: the side lengths of every reaction whose sides were built. */
  function TokenLens(step: Rxn -> Tokenized, rs: seq<Rxn>): (r: seq<(nat, nat)>)
    ensures |r| <= |rs|
  {
    if |rs| == 0 then []
    else
      TokenLens(step, rs[..|rs| - 1])
      + match step(rs[|rs| - 1]) case ParseFailed => [] case _ => [step(rs[|rs| - 1]).lens]
  }

  /** The records dumped to the intermediate file, in reaction order. */
  function Records(step: Rxn -> Tokenized, rs: seq<Rxn>): (r: seq<Record>)
    ensures |r| <= |rs|
  {
    if |rs| == 0 then []
    else
      Records(step, rs[..|rs| - 1])
      + match step(rs[|rs| - 1]) case Encoded(_, rec) => [rec] case _ => []
  }

  /** `error_rsmi` of `tokenize_data`. */
  function TokenErrors(step: Rxn -> Tokenized, rs: seq<Rxn>): (e: map<nat, string>)
    ensures forall i :: i in e <==> 0 <= i < |rs| && !step(rs[i]).Encoded?
    ensures forall i :: i in e ==> e[i] == rs[i].smile
  {
    map i | 0 <= i < |rs| && !step(rs[i]).Encoded? :: rs[i].smile
  }

  lemma TokenizeStep(step: Rxn -> Tokenized, rs: seq<Rxn>, i: nat)
    requires i < |rs|
    ensures TokenLens(step, rs[..i + 1])
         == TokenLens(step, rs[..i]) + if step(rs[i]).ParseFailed? then [] else [step(rs[i]).lens]
    ensures Records(step, rs[..i + 1])
         == Records(step, rs[..i]) + if step(rs[i]).Encoded? then [step(rs[i]).record] else []
    ensures TokenErrors(step, rs[..i + 1])
         == if step(rs[i]).Encoded? then TokenErrors(step, rs[..i])
            else TokenErrors(step, rs[..i])[i := rs[i].smile]
  {
    assert rs[..i + 1][..i] == rs[..i];
    var e, e' := TokenErrors(step, rs[..i]), TokenErrors(step, rs[..i + 1]);
    if step(rs[i]).Encoded? {
      assert e' == e;
    } else {
      assert e' == e[i := rs[i].smile];
    }
  }

  /** Every emitted record has its lengths in `token_len`, and `token_len` has at most one entry per reaction. */
  lemma {:induction false} TokenizeCounts(step: Rxn -> Tokenized, rs: seq<Rxn>)
    ensures |Records(step, rs)| <= |TokenLens(step, rs)| <= |rs|
  {
    if |rs| > 0 {
      TokenizeCounts(step, rs[..|rs| - 1]);
    }
  }

  /** Every reaction is either emitted as a record or listed in `error_rsmi`, never both. */
  lemma {:induction false} TokenizePartition(step: Rxn -> Tokenized, rs: seq<Rxn>)
    ensures |Records(step, rs)| + |TokenErrors(step, rs)| == |rs|
  {
    if |rs| > 0 {
      TokenizePartition(step, rs[..|rs| - 1]);
      TokenErrorsSnoc(step, rs);
    }
  }

  /** `error_rsmi` grows by the last reaction exactly when that reaction is not emitted. */
  lemma TokenErrorsSnoc(step: Rxn -> Tokenized, rs: seq<Rxn>)
    requires |rs| > 0
    ensures var n := |rs| - 1;
      |TokenErrors(step, rs)| == |TokenErrors(step, rs[..n])| + if step(rs[n]).Encoded? then 0 else 1
  {
    var n := |rs| - 1;
    var e, e' := TokenErrors(step, rs[..n]), TokenErrors(step, rs);
    if step(rs[n]).Encoded? {
      assert e' == e;
    } else {
      assert e' == e[n := rs[n].smile];
      assert n !in e;
    }
  }

  /** As written, no record is ever emitted and every reaction is an error. */
  lemma {:induction false} AsWrittenTokenizeEmitsNothing(parse: Parser, rs: seq<Rxn>)
    ensures Records(AsWrittenTokenizeRxn(parse), rs) == []
    ensures forall i :: i in TokenErrors(AsWrittenTokenizeRxn(parse), rs) <==> 0 <= i < |rs|
  {
    if |rs| > 0 {
      AsWrittenTokenizeEmitsNothing(parse, rs[..|rs| - 1]);
    }
  }

  lemma SampleTokenSides()
    ensures TokenSides(EchoParser(), SampleRxn) == Some(Sides(["C", Gt, "O"], ["C"]))
  {
    ParseSingle("C");
    ParseSingle("O");
    assert ["C"] + [Gt] + ["O"] == ["C", Gt, "O"];
  }

  lemma SampleEncode()
    ensures Encode(["C", Gt, "O"], ["C", Gt, "O"]) == Some([0, 1, 2])
    ensures Encode(["C"], ["C"]) == Some([0])
  {
    var rl := ["C", Gt, "O"];
    assert IndexOf(rl, "O") == Some(2);
    assert IndexOf(rl, Gt) == Some(1);
    assert IndexOf(["C"], "C") == Some(0);
    assert ["O"][0] == "O" && ["O"][1..] == [];
    assert [Gt, "O"][0] == Gt && [Gt, "O"][1..] == ["O"];
    assert ["C", Gt, "O"][0] == "C" && ["C", Gt, "O"][1..] == [Gt, "O"];
    assert ["C"][0] == "C" && ["C"][1..] == [];
    assert Encode(rl, []) == Some([]);
    assert [2] + [] == [2] && [1] + [2] == [1, 2] && [0] + [1, 2] == [0, 1, 2];
    assert Encode(rl, ["O"]) == Some([2]);
    assert Encode(rl, [Gt, "O"]) == Some([1, 2]);
    assert Encode(rl, ["C", Gt, "O"]) == Some([0, 1, 2]);
    assert Encode(["C"], []) == Some([]);
    assert [0] + [] == [0];
    assert Encode(["C"], ["C"]) == Some([0]);
  }

  /**
    When every token of the sample reaction is in the ranked lists, the
    intended code emits its record; as written it emits nothing.
   */
  lemma SampleTokenizes()
    ensures TokenizeRxnOf(EchoParser(), ["C", Gt, "O"], ["C"])(SampleRxn)
         == Encoded((3, 1), Record([0, 1, 2], [0], SampleRxn.smile))
  {
    SampleTokenSides();
    SampleEncode();
  }

  lemma RecordsOfOne(step: Rxn -> Tokenized, rxn: Rxn)
    ensures Records(step, [rxn]) == match step(rxn) case Encoded(_, rec) => [rec] case _ => []
  {
    assert [rxn][..0] == [];
  }

  lemma AsWrittenTokenizeDiffers()
    ensures Records(TokenizeRxnOf(EchoParser(), ["C", Gt, "O"], ["C"]), [SampleRxn])
            == [Record([0, 1, 2], [0], SampleRxn.smile)]
    ensures Records(AsWrittenTokenizeRxn(EchoParser()), [SampleRxn]) == []
  {
    SampleTokenizes();
    SampleTokenSides();
    RecordsOfOne(TokenizeRxnOf(EchoParser(), ["C", Gt, "O"], ["C"]), SampleRxn);
    RecordsOfOne(AsWrittenTokenizeRxn(EchoParser()), SampleRxn);
  }


  // ---------------------------------------------------------------------------
  // The cut counts of tokenize_data

  /** How many length pairs are below both bounds. */
  function Within(lens: seq<(nat, nat)>, a: nat, b: nat): (n: nat)
    ensures n <= |lens|
  {
    if |lens| == 0 then 0
    else Within(lens[..|lens| - 1], a, b)
         + (if lens[|lens| - 1].0 < a && lens[|lens| - 1].1 < b then 1 else 0)
  }

  /** Tighter bounds admit fewer pairs, and no bound admits more than all of them. */
  lemma {:induction false} WithinMonotone(lens: seq<(nat, nat)>, a: nat, b: nat, a': nat, b': nat)
    requires a <= a' && b <= b'
    ensures Within(lens, a, b) <= Within(lens, a', b') <= |lens|
  {
    if |lens| > 0 {
      WithinMonotone(lens[..|lens| - 1], a, b, a', b');
    }
  }

  /**
    The nested `if`s over `token_len`: `count[3]` counts pairs below (150, 80),
    `count[2]` below (90, 65), `count[1]` below (70, 60), `count[0]` below
    (54, 54), and `count[4]` is never incremented.
   */
  method CutCounts(lens: seq<(nat, nat)>) returns (count: seq<nat>)
    ensures |count| == 5
    ensures count[0] == Within(lens, 54, 54) && count[1] == Within(lens, 70, 60)
    ensures count[2] == Within(lens, 90, 65) && count[3] == Within(lens, 150, 80)
    ensures count[4] == 0
    ensures count[0] <= count[1] <= count[2] <= count[3] <= |lens|
  {
    var c := new nat[5](_ => 0);
    var i := 0;
    while i < |lens|
      invariant 0 <= i <= |lens|
      invariant c[0] == Within(lens[..i], 54, 54) && c[1] == Within(lens[..i], 70, 60)
      invariant c[2] == Within(lens[..i], 90, 65) && c[3] == Within(lens[..i], 150, 80)
      invariant c[4] == 0
    {
      assert lens[..i + 1][..i] == lens[..i];
      var length := lens[i];
      if length.0 < 150 && length.1 < 80 {
        c[3] := c[3] + 1;
        if length.0 < 90 && length.1 < 65 {
          c[2] := c[2] + 1;
          if length.0 < 70 && length.1 < 60 {
            c[1] := c[1] + 1;
            if length.0 < 54 && length.1 < 54 {
              c[0] := c[0] + 1;
            }
          }
        }
      }
      i := i + 1;
    }
    assert lens[..i] == lens;
    WithinMonotone(lens, 54, 54, 70, 60);
    WithinMonotone(lens, 70, 60, 90, 65);
    WithinMonotone(lens, 90, 65, 150, 80);
    count := c[..];
  }

  // ---------------------------------------------------------------------------
  // The train/dev split of tokenize_data

  /** A shard entry: the record's two ID lists, without its reaction string. */
  function ExampleOf(rec: Record): Example
  {
    (rec.reactantIds, rec.productIds)
  }

  /**
    The `while` loop that re-reads the records: record number `i` (counting from
    1) goes to the dev shard when `i % 100 == 0` and to the training shard
    otherwise. Dev holds records 100, 200, ... and training all the others, in
    order; `devCount` is the dev size.
   */
  method SplitShards(records: seq<Record>) returns (train: seq<Example>, dev: seq<Example>, devCount: nat)
    ensures |dev| == devCount == |records| / 100
    ensures |train| + |dev| == |records|
    ensures forall m :: 0 <= m < |dev| ==> dev[m] == ExampleOf(records[100 * m + 99])
    ensures forall m :: 0 <= m < |train| ==> m + m / 99 < |records|
    ensures forall m :: 0 <= m < |train| ==> train[m] == ExampleOf(records[m + m / 99])
  {
    train, dev, devCount := [], [], 0;
    var i := 1;
    while i <= |records|
      invariant 1 <= i <= |records| + 1
      invariant |dev| == devCount == (i - 1) / 100
      invariant |train| == (i - 1) - (i - 1) / 100
      invariant forall m :: 0 <= m < |dev| ==> dev[m] == ExampleOf(records[100 * m + 99])
      invariant forall m :: 0 <= m < |train| ==> m + m / 99 < i - 1
      invariant forall m :: 0 <= m < |train| ==> train[m] == ExampleOf(records[m + m / 99])
    {
      var rec := records[i - 1];
      if i % 100 != 0 {
        ghost var m := |train|;
        assert m + m / 99 == i - 1;
        train := train + [ExampleOf(rec)];
      } else {
        assert 100 * |dev| + 99 == i - 1;
        dev := dev + [ExampleOf(rec)];
        devCount := devCount + 1;
      }
      i := i + 1;
    }
  }

  /** Each record lands in a shard, at the position the split formula gives. */
  lemma ShardOfRecord(n: nat, k: nat)
    requires k < n
    ensures (k + 1) % 100 == 0 ==> var m := (k + 1) / 100 - 1; 0 <= m < n / 100 && 100 * m + 99 == k
    ensures (k + 1) % 100 != 0 ==> var m := k - k / 100; 0 <= m < n - n / 100 && m + m / 99 == k
  {
  }

  /** No record is in both shards: the training positions never reach a dev record. */
  lemma ShardsDisjoint(m: nat, m': nat)
    ensures m + m / 99 != 100 * m' + 99
  {
    assert (m + m / 99 + 1) % 100 != 0;
    assert (100 * m' + 99 + 1) % 100 == 0;
  }

  // ---------------------------------------------------------------------------
  // The dataset object

  /**
    The loop of `create_vocab`: each reaction is split and parsed, and the
    tokens of the ones that succeed are counted into the two tables.
   */
  method CountReactions(parse: Parser, rs: seq<Rxn>, vr0: Vocab, vp0: Vocab)
    returns (vr: Vocab, vp: Vocab, errors: map<nat, string>)
    requires WellFormed(vr0) && WellFormed(vp0)
    ensures WellFormed(vr) && WellFormed(vp)
    ensures vr == Tallied(vr0, ReactantCorpus(VocabSidesOf(parse), rs))
    ensures vp == Tallied(vp0, ProductCorpus(VocabSidesOf(parse), rs))
    ensures errors == VocabErrors(VocabSidesOf(parse), rs)
  {
    var sidesOf := VocabSidesOf(parse);
    vr, vp := vr0, vp0;
    errors := map[];
    var i := 0;
    assert rs[..0] == [];
    assert errors == VocabErrors(sidesOf, []);
    while i < |rs|
      invariant 0 <= i <= |rs|
      invariant WellFormed(vr) && WellFormed(vp)
      invariant vr == Tallied(vr0, ReactantCorpus(sidesOf, rs[..i]))
      invariant vp == Tallied(vp0, ProductCorpus(sidesOf, rs[..i]))
      invariant errors == VocabErrors(sidesOf, rs[..i])
    {
      CreateVocabStep(sidesOf, rs, i, vr0, vp0);
      var sides := ReactionVocabSides(parse, rs[i]);
      assert sidesOf(rs[i]) == sides;
      if sides.None? {
        errors := errors[i := rs[i].smile];
      } else {
        vr := Tally(vr, sides.value.reactantSide);
        vp := Tally(vp, sides.value.productSide);
      }
      i := i + 1;
    }
    assert rs[..i] == rs;
  }

  /** The body of the `try` in `create_vocab` up to the counting, for one reaction. */
  method ReactionVocabSides(parse: Parser, rxn: Rxn) returns (sides: Option<Sides>)
    ensures sides == VocabSides(parse, rxn)
  {
    var reactantList := JoinMolecules(parse, SplitDots(rxn.reactantsSmile));
    var reagentList := JoinMolecules(parse, SplitDots(rxn.reagentsSmile));
    var productList := JoinMolecules(parse, SplitDots(rxn.productsSmile));
    if reactantList.None? || reagentList.None? || productList.None? {
      return None;
    }
    sides := Some(Sides(reactantList.value + [Gt] + reagentList.value, productList.value));
  }

  /** The `RxnDataset` object: its reactions, its two tables and its two ranked lists. */
  class RxnDataset {
    var rxns: seq<Rxn>
    var vocabReactants: Vocab
    var vocabProducts: Vocab
    var reactantsTokenList: seq<Token>
    var productsTokenList: seq<Token>

    ghost predicate Valid()
      reads this
    {
      WellFormed(vocabReactants) && WellFormed(vocabProducts)
    }

    /**
      A dataset over the reactions read from the file (the reading is not part
      of this model); the ranked lists do not exist yet and are empty here.
     */
    constructor (rxns: seq<Rxn>)
      ensures Valid()
      ensures this.rxns == rxns
      ensures vocabReactants == EmptyVocab && vocabProducts == EmptyVocab
      ensures reactantsTokenList == [] && productsTokenList == []
    {
      this.rxns := rxns;
      vocabReactants, vocabProducts := EmptyVocab, EmptyVocab;
      reactantsTokenList, productsTokenList := [], [];
    }

    method RemoveMaxReactants(maxReactants: int)
      modifies this`rxns
      ensures rxns == Filter(old(rxns), FewReactants(maxReactants))
    {
      rxns := Filter(rxns, FewReactants(maxReactants));
    }

    method RemoveMaxProducts(maxProducts: int)
      modifies this`rxns
      ensures rxns == Filter(old(rxns), FewProducts(maxProducts))
    {
      rxns := Filter(rxns, FewProducts(maxProducts));
    }

    /**
      `create_vocab`, reading each reaction's side strings. Each table grows by
      the tokens of the reactions that did not fail, the ranked lists are
      rebuilt from the tables, and the failing reactions are returned.
     */
    method CreateVocab(parse: Parser) returns (errors: map<nat, string>)
      requires Valid()
      modifies this`vocabReactants, this`vocabProducts, this`reactantsTokenList, this`productsTokenList
      ensures Valid()
      ensures vocabReactants == Tallied(old(vocabReactants), ReactantCorpus(VocabSidesOf(parse), rxns))
      ensures vocabProducts == Tallied(old(vocabProducts), ProductCorpus(VocabSidesOf(parse), rxns))
      ensures reactantsTokenList == TokenList(vocabReactants)
      ensures productsTokenList == TokenList(vocabProducts)
      ensures errors == VocabErrors(VocabSidesOf(parse), rxns)
    {
      var vr, vp;
      vr, vp, errors := CountReactions(parse, rxns, vocabReactants, vocabProducts);
      vocabReactants, vocabProducts := vr, vp;
      reactantsTokenList, productsTokenList := TokenList(vr), TokenList(vp);
    }

    /** `save_vocab_to_file` without the files: the two pickled tuples. */
    method SaveVocab() returns (dicts: (Vocab, Vocab), lists: (seq<Token>, seq<Token>))
      ensures dicts == (vocabReactants, vocabProducts)
      ensures lists == (reactantsTokenList, productsTokenList)
    {
      dicts := (vocabReactants, vocabProducts);
      lists := (reactantsTokenList, productsTokenList);
    }

    /** `load_vocab_from_file` without the files: unpickling the two tuples. */
    method LoadVocab(dicts: (Vocab, Vocab), lists: (seq<Token>, seq<Token>))
      modifies this`vocabReactants, this`vocabProducts, this`reactantsTokenList, this`productsTokenList
      ensures (vocabReactants, vocabProducts) == dicts
      ensures (reactantsTokenList, productsTokenList) == lists
      ensures WellFormed(dicts.0) && WellFormed(dicts.1) ==> Valid()
    {
      vocabReactants, vocabProducts := dicts.0, dicts.1;
      reactantsTokenList, productsTokenList := lists.0, lists.1;
    }

    /** Saving the vocabulary and loading it back reproduces both tables and both lists. */
    method SaveThenLoadVocab()
      modifies this`vocabReactants, this`vocabProducts, this`reactantsTokenList, this`productsTokenList
      ensures vocabReactants == old(vocabReactants) && vocabProducts == old(vocabProducts)
      ensures reactantsTokenList == old(reactantsTokenList) && productsTokenList == old(productsTokenList)
    {
      var dicts, lists := SaveVocab();
      LoadVocab(dicts, lists);
    }

    /** The body of the `try` in `tokenize_data` for one reaction. */
    method TokenizeReaction(parse: Parser, rxn: Rxn) returns (o: Tokenized)
      ensures o == TokenizeRxn(parse, reactantsTokenList, productsTokenList, rxn)
    {
      var reactantList := JoinMolecules(parse, rxn.reactants);
      var reagentList := JoinMolecules(parse, rxn.reagents);
      var productList := JoinMolecules(parse, rxn.products);
      if reactantList.None? || reagentList.None? || productList.None? {
        return ParseFailed;
      }
      var side := reactantList.value + [Gt] + reagentList.value;
      var lens := (|side|, |productList.value|);
      var reactantIds := Encode(reactantsTokenList, side);
      var productIds := Encode(productsTokenList, productList.value);
      if reactantIds.None? || productIds.None? {
        return LookupFailed(lens);
      }
      o := Encoded(lens, Record(reactantIds.value, productIds.value, rxn.smile));
    }

    /**
      The loop of `tokenize_data` over the reactions: the records written to the
      intermediate file, `token_len` and `error_rsmi`.
     */
    method TokenizeReactions(parse: Parser)
      returns (records: seq<Record>, tokenLen: seq<(nat, nat)>, errors: map<nat, string>)
      ensures records == Records(TokenizeRxnOf(parse, reactantsTokenList, productsTokenList), rxns)
      ensures tokenLen == TokenLens(TokenizeRxnOf(parse, reactantsTokenList, productsTokenList), rxns)
      ensures errors == TokenErrors(TokenizeRxnOf(parse, reactantsTokenList, productsTokenList), rxns)
    {
      ghost var step := TokenizeRxnOf(parse, reactantsTokenList, productsTokenList);
      records, tokenLen, errors := [], [], map[];
      var i := 0;
      while i < |rxns|
        invariant 0 <= i <= |rxns|
        invariant records == Records(step, rxns[..i])
        invariant tokenLen == TokenLens(step, rxns[..i])
        invariant errors == TokenErrors(step, rxns[..i])
      {
        var rxn := rxns[i];
        TokenizeStep(step, rxns, i);
        var o := TokenizeReaction(parse, rxn);
        assert o == step(rxn);
        if !o.ParseFailed? {
          tokenLen := tokenLen + [o.lens];
        }
        if o.Encoded? {
          records := records + [o.record];
        } else {
          errors := errors[i := rxn.smile];
        }
        i := i + 1;
      }
      assert rxns[..i] == rxns;
    }

    /**
      `tokenize_data`: tokenises every reaction against the ranked lists,
      counts the length cut-offs and splits the records into the shards.
     */
    method TokenizeData(parse: Parser)
      returns (errors: map<nat, string>, tokenLen: seq<(nat, nat)>, cut: seq<nat>,
               train: seq<Example>, dev: seq<Example>, devCount: nat)
      ensures tokenLen == TokenLens(TokenizeRxnOf(parse, reactantsTokenList, productsTokenList), rxns)
      ensures errors == TokenErrors(TokenizeRxnOf(parse, reactantsTokenList, productsTokenList), rxns)
      ensures |cut| == 5 && cut[0] <= cut[1] <= cut[2] <= cut[3] <= |tokenLen| && cut[4] == 0
      ensures cut[0] == Within(tokenLen, 54, 54) && cut[1] == Within(tokenLen, 70, 60)
      ensures cut[2] == Within(tokenLen, 90, 65) && cut[3] == Within(tokenLen, 150, 80)
      ensures var recs := Records(TokenizeRxnOf(parse, reactantsTokenList, productsTokenList), rxns);
              && |dev| == devCount == |recs| / 100 && |train| + |dev| == |recs|
              && (forall m :: 0 <= m < |dev| ==> dev[m] == ExampleOf(recs[100 * m + 99]))
              && (forall m :: 0 <= m < |train| ==>
                    m + m / 99 < |recs| && train[m] == ExampleOf(recs[m + m / 99]))
    {
      var records;
      records, tokenLen, errors := TokenizeReactions(parse);
      cut := CutCounts(tokenLen);
      train, dev, devCount := SplitShards(records);
    }
  }
}
