/**
  Token sequences of reaction SMILES: splitting a side into molecules, joining
  the molecules' token lists with the '.' separator, and mapping tokens to
  their IDs in a ranked token list (rxntorch/containers/dataset.py).
 */
module Tokens {
  import opened Wrappers

  /** A token emitted by the SMILES parser, or one of the literal tokens below. */
  type Token = string

  /** The SMILES parser `sp.parser_list`: it tokenises one molecule or fails. */
  type Parser = string -> Option<seq<Token>>

  /** Separator between consecutive molecules of one side. */
  const Dot: Token := "."

  /** Boundary between the reactants and the reagents of the reactant side. */
  const Gt: Token := ">"

  /** `parts` with `sep` between consecutive parts and nothing after the last one. */
  function Join<T>(parts: seq<seq<T>>, sep: seq<T>): seq<T>
  {
    if |parts| == 0 then []
    else if |parts| == 1 then parts[0]
    else parts[0] + sep + Join(parts[1..], sep)
  }

  lemma JoinCons<T>(p: seq<T>, ps: seq<seq<T>>, sep: seq<T>)
    ensures Join([p] + ps, sep) == if |ps| == 0 then p else p + sep + Join(ps, sep)
  {
    assert ([p] + ps)[1..] == ps;
  }

  lemma {:induction false} JoinSnoc<T>(ps: seq<seq<T>>, p: seq<T>, sep: seq<T>)
    requires |ps| > 0
    ensures Join(ps + [p], sep) == Join(ps, sep) + sep + p
  {
    assert ps + [p] == [ps[0]] + (ps[1..] + [p]);
    JoinCons(ps[0], ps[1..] + [p], sep);
    if |ps| == 1 {
      assert ps[1..] + [p] == [p];
    } else {
      JoinSnoc(ps[1..], p, sep);
      JoinCons(ps[0], ps[1..], sep);
      assert [ps[0]] + ps[1..] == ps;
    }
  }

  /** Python's `s.split('.')`: at least one piece, empty pieces kept. */
  function SplitDots(s: string): (r: seq<string>)
    ensures |r| >= 1
  {
    if |s| == 0 then [""]
    else
      var rest := SplitDots(s[1..]);
      if s[0] == '.' then [""] + rest
      else [[s[0]] + rest[0]] + rest[1..]
  }

  /** No piece of the split contains a '.'. */
  lemma {:induction false} SplitDotsPieces(s: string)
    ensures forall i :: 0 <= i < |SplitDots(s)| ==> '.' !in SplitDots(s)[i]
  {
    if |s| > 0 && s[0] != '.' {
      var rest := SplitDots(s[1..]);
      SplitDotsPieces(s[1..]);
      var r := SplitDots(s);
      assert r == [[s[0]] + rest[0]] + rest[1..];
      forall i | 0 <= i < |r| ensures '.' !in r[i] {
        if i == 0 {
          assert r[0] == [s[0]] + rest[0];
        } else {
          assert r[i] == rest[i];
        }
      }
    } else if |s| > 0 {
      SplitDotsPieces(s[1..]);
      assert SplitDots(s) == [""] + SplitDots(s[1..]);
    }
  }

  /** Joining the pieces with '.' gives back the string. */
  lemma {:induction false} SplitDotsJoin(s: string)
    ensures Join(SplitDots(s), ".") == s
  {
    if |s| > 0 {
      var rest := SplitDots(s[1..]);
      SplitDotsJoin(s[1..]);
      assert [s[0]] + s[1..] == s;
      if s[0] == '.' {
        JoinCons("", rest, ".");
      } else {
        assert SplitDots(s) == [[s[0]] + rest[0]] + rest[1..];
        JoinCons([s[0]] + rest[0], rest[1..], ".");
        JoinCons(rest[0], rest[1..], ".");
        assert [rest[0]] + rest[1..] == rest;
      }
    }
  }


  /** The parser's output for every molecule, or None when it fails on any of them. */
  function ParseAll(parse: Parser, mols: seq<string>): (r: Option<seq<seq<Token>>>)
    ensures r.Some? <==> forall i :: 0 <= i < |mols| ==> parse(mols[i]).Some?
    ensures r.Some? ==> |r.value| == |mols|
    ensures r.Some? ==> forall i :: 0 <= i < |mols| ==> r.value[i] == parse(mols[i]).value
  {
    if |mols| == 0 then Some([])
    else
      var init := mols[..|mols| - 1];
      assert forall i :: 0 <= i < |init| ==> init[i] == mols[i];
      match ParseAll(parse, init)
      case None => None
      case Some(lists) =>
        match parse(mols[|mols| - 1])
        case None => None
        case Some(toks) => Some(lists + [toks])
  }

  /**
    The token list of a whole side: the molecules' token lists joined by '.'.
    None when a molecule fails to parse, and when there is no molecule at all,
    because popping the trailing separator from an empty list raises.
   */
  function JoinedTokens(parse: Parser, mols: seq<string>): (r: Option<seq<Token>>)
    ensures r.Some? <==> |mols| > 0 && forall i :: 0 <= i < |mols| ==> parse(mols[i]).Some?
  {
    match ParseAll(parse, mols)
    case None => None
    case Some(lists) => if |lists| == 0 then None else Some(Join(lists, [Dot]))
  }

  /** Every token list followed by a separator: the list before the final `pop()`. */
  function Terminated(lists: seq<seq<Token>>): seq<Token>
  {
    if |lists| == 0 then []
    else Terminated(lists[..|lists| - 1]) + lists[|lists| - 1] + [Dot]
  }

  lemma {:induction false} TerminatedIsJoinThenDot(lists: seq<seq<Token>>)
    requires |lists| > 0
    ensures Terminated(lists) == Join(lists, [Dot]) + [Dot]
  {
    var init, last := lists[..|lists| - 1], lists[|lists| - 1];
    assert lists == init + [last];
    if |init| == 0 {
      assert lists == [last];
    } else {
      TerminatedIsJoinThenDot(init);
      JoinSnoc(init, last, [Dot]);
    }
  }

  /**
    The loop of `create_vocab` and `tokenize_data` that extends a list by each
    molecule's tokens and a '.', then pops the last separator.
   */
  method JoinMolecules(parse: Parser, mols: seq<string>) returns (r: Option<seq<Token>>)
    ensures r == JoinedTokens(parse, mols)
    ensures r.Some? <==> |mols| > 0 && forall i :: 0 <= i < |mols| ==> parse(mols[i]).Some?
  {
    var acc: seq<Token> := [];
    var i := 0;
    while i < |mols|
      invariant 0 <= i <= |mols|
      invariant ParseAll(parse, mols[..i]).Some?
      invariant acc == Terminated(ParseAll(parse, mols[..i]).value)
    {
      var toks := parse(mols[i]);
      if toks.None? {
        return None;
      }
      assert mols[..i + 1][..i] == mols[..i];
      acc := acc + toks.value + [Dot];
      i := i + 1;
    }
    assert mols[..i] == mols;
    if |acc| == 0 {
      return None;
    }
    TerminatedIsJoinThenDot(ParseAll(parse, mols).value);
    r := Some(acc[..|acc| - 1]);
  }

  /** Python's `list.index(t)`: the first position of `t`, or None (ValueError). */
  function IndexOf(list: seq<Token>, t: Token): (r: Option<nat>)
    ensures r.Some? ==> r.value < |list| && list[r.value] == t
    ensures r.Some? ==> forall j :: 0 <= j < r.value ==> list[j] != t
    ensures r.None? <==> t !in list
  {
    if |list| == 0 then None
    else if list[0] == t then Some(0)
    else
      match IndexOf(list[1..], t)
      case None => None
      case Some(k) => Some(k + 1)
  }

  /** `[list.index(t) for t in ts]`: None as soon as one token is missing from `list`. */
  function Encode(list: seq<Token>, ts: seq<Token>): (r: Option<seq<nat>>)
    ensures r.Some? <==> forall i :: 0 <= i < |ts| ==> ts[i] in list
    ensures r.Some? ==> |r.value| == |ts|
    ensures r.Some? ==> forall i :: 0 <= i < |ts| ==> r.value[i] < |list| && list[r.value[i]] == ts[i]
    ensures r.Some? ==> forall i :: 0 <= i < |ts| ==> IndexOf(list, ts[i]) == Some(r.value[i])
  {
    if |ts| == 0 then Some([])
    else
      match IndexOf(list, ts[0])
      case None => None
      case Some(id) =>
        match Encode(list, ts[1..])
        case None => None
        case Some(ids) => Some([id] + ids)
  }

  /** The tokens that a sequence of IDs stands for in `list`. */
  function Decode(list: seq<Token>, ids: seq<nat>): seq<Token>
    requires forall i :: 0 <= i < |ids| ==> ids[i] < |list|
  {
    seq(|ids|, i requires 0 <= i < |ids| => list[ids[i]])
  }

  /** Decoding the IDs of an encoded sequence gives the sequence back. */
  lemma DecodeEncode(list: seq<Token>, ts: seq<Token>)
    requires Encode(list, ts).Some?
    ensures Decode(list, Encode(list, ts).value) == ts
  {
  }
}
