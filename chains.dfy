/**
 * Chains of any length: N blocks, each a Gemm node followed by a Relu node,
 * whose weights and biases are stored under names used nowhere else. The
 * walk takes the N stored layers in chain order and stops at the last Gemm.
 */
module ChainNetworks {
  import opened Wrappers
  import opened Tensors
  import opened OnnxGraph
  import opened Extraction
  import opened WalkProperties
  import opened Conversion

  /** A name made of a letter and `k` marks: names differing in letter or in length differ. */
  function Tag(letter: char, k: nat): (r: string)
    ensures |r| == k + 1 && r[0] == letter
  {
    [letter] + seq(k, _ => '#')
  }

  /** Block `k`'s Gemm node: it reads cursor `C k` with weight `W k` and bias `B k`, and writes `H k`. */
  function GemmBlock(k: nat): Node
  {
    Node("Gemm", [Tag('C', k), Tag('W', k), Tag('B', k)], [Tag('H', k)], [])
  }

  /** Block `k`'s Relu node: from `H k` to the next block's cursor `C (k + 1)`. */
  function ReluBlock(k: nat): Node
  {
    Node("Relu", [Tag('H', k)], [Tag('C', k + 1)], [])
  }

  function ChainNodes(n: nat): (r: seq<Node>)
    ensures |r| == 2 * n
    ensures forall i :: 0 <= i < 2 * n ==> r[i] == if i % 2 == 0 then GemmBlock(i / 2) else ReluBlock(i / 2)
  {
    seq(2 * n, i requires 0 <= i < 2 * n => if i % 2 == 0 then GemmBlock(i / 2) else ReluBlock(i / 2))
  }

  /** Weight `k` under `W k`, then bias `k` under `B k`, block after block. */
  function ChainInits(ws: seq<Tensor>, bs: seq<Tensor>): (r: seq<Initializer>)
    requires |ws| == |bs|
    ensures |r| == 2 * |ws|
    ensures forall i :: 0 <= i < |r| ==>
      r[i] == if i % 2 == 0 then Initializer(Tag('W', i / 2), ws[i / 2]) else Initializer(Tag('B', i / 2), bs[i / 2])
  {
    seq(2 * |ws|, i requires 0 <= i < 2 * |ws| =>
      if i % 2 == 0 then Initializer(Tag('W', i / 2), ws[i / 2]) else Initializer(Tag('B', i / 2), bs[i / 2]))
  }

  /** The chain as a graph declaring one input, `C 0`, and one output, the last block's `H`. */
  function Chain(ws: seq<Tensor>, bs: seq<Tensor>): Graph
    requires 0 < |ws| == |bs|
  {
    Graph([Tag('C', 0)], [Tag('H', |ws| - 1)], ChainNodes(|ws|), ChainInits(ws, bs))
  }

  /** Block `k`'s weight and bias are each stored once, under their own names. */
  lemma ChainNamesUnique(ws: seq<Tensor>, bs: seq<Tensor>, k: nat)
    requires |ws| == |bs| && k < |ws|
    ensures ChainInits(ws, bs)[2 * k] == Initializer(Tag('W', k), ws[k])
    ensures ChainInits(ws, bs)[2 * k + 1] == Initializer(Tag('B', k), bs[k])
    ensures forall i :: 0 <= i < 2 * |ws| && i != 2 * k ==> ChainInits(ws, bs)[i].name != Tag('W', k)
    ensures forall i :: 0 <= i < 2 * |ws| && i != 2 * k + 1 ==> ChainInits(ws, bs)[i].name != Tag('B', k)
  {
    var inits := ChainInits(ws, bs);
    forall i | 0 <= i < |inits|
      ensures inits[i].name == Tag(if i % 2 == 0 then 'W' else 'B', i / 2)
    {
    }
  }

  /** Block `k`'s Gemm node takes exactly the weight and bias stored for block `k`. */
  lemma GemmBlockEffect(ws: seq<Tensor>, bs: seq<Tensor>, k: nat)
    requires |ws| == |bs| && k < |ws|
    ensures NodeEffect(ChainNodes(|ws|)[2 * k], 2 * k, ChainInits(ws, bs), Tag('C', k))
         == Ok(Consumed(Tag('H', k), [ws[k]], [bs[k]]))
  {
    assert ChainNodes(|ws|)[2 * k] == GemmBlock(k);
    ChainNamesUnique(ws, bs, k);
    GemmDefaults(GemmBlock(k), 2 * k, ChainInits(ws, bs), Tag('C', k), 2 * k);
    UniqueNameLooksUpOne(ChainInits(ws, bs), Tag('B', k), 2 * k + 1);
  }

  /** Taking one more element of a sequence's prefix. */
  lemma PrefixGrows<T>(s: seq<T>, k: nat)
    requires k < |s|
    ensures s[..k] + [s[k]] == s[..k + 1]
    ensures s[..k + 1] + [] == s[..k + 1]
    ensures k + 1 == |s| ==> s[..k + 1] == s
  {
  }

  /** Block `k`'s Relu node moves the cursor from `H k` to `C (k + 1)`. */
  lemma ReluBlockEffect(ws: seq<Tensor>, bs: seq<Tensor>, k: nat)
    requires |ws| == |bs| && k < |ws|
    ensures NodeEffect(ChainNodes(|ws|)[2 * k + 1], 2 * k + 1, ChainInits(ws, bs), Tag('H', k))
         == Ok(Consumed(Tag('C', k + 1), [], []))
  {
    assert ChainNodes(|ws|)[2 * k + 1] == ReluBlock(k);
    ReluOnlyAdvances(ReluBlock(k), 2 * k + 1, ChainInits(ws, bs), Tag('H', k));
  }

  /** In the chain, block `j`'s Gemm node takes layer `j`. */
  lemma ChainGemmEffects(ws: seq<Tensor>, bs: seq<Tensor>)
    requires |ws| == |bs|
    ensures forall j {:trigger ws[j]} :: 0 <= j < |ws| ==>
      NodeEffect(ChainNodes(|ws|)[2 * j], 2 * j, ChainInits(ws, bs), Tag('C', j))
        == Ok(Consumed(Tag('H', j), [ws[j]], [bs[j]]))
  {
    forall j | 0 <= j < |ws|
      ensures NodeEffect(ChainNodes(|ws|)[2 * j], 2 * j, ChainInits(ws, bs), Tag('C', j))
           == Ok(Consumed(Tag('H', j), [ws[j]], [bs[j]]))
    {
      GemmBlockEffect(ws, bs, j);
    }
  }

  /** In the chain, block `j`'s Relu node passes the cursor on to block `j + 1`. */
  lemma ChainReluEffects(ws: seq<Tensor>, bs: seq<Tensor>)
    requires |ws| == |bs|
    ensures forall j {:trigger Tag('H', j)} :: 0 <= j < |ws| ==>
      NodeEffect(ChainNodes(|ws|)[2 * j + 1], 2 * j + 1, ChainInits(ws, bs), Tag('H', j))
        == Ok(Consumed(Tag('C', j + 1), [], []))
  {
    forall j | 0 <= j < |ws|
      ensures NodeEffect(ChainNodes(|ws|)[2 * j + 1], 2 * j + 1, ChainInits(ws, bs), Tag('H', j))
           == Ok(Consumed(Tag('C', j + 1), [], []))
    {
      ReluBlockEffect(ws, bs, j);
    }
  }

  /** The walk across one whole block that is not the last: its layer is taken, the cursor moves on. */
  lemma BlockStep(nodes: seq<Node>, inits: seq<Initializer>, ws: seq<Tensor>, bs: seq<Tensor>, k: nat)
    requires |ws| == |bs| && |nodes| == 2 * |ws| && k + 1 < |ws|
    requires NodeEffect(nodes[2 * k], 2 * k, inits, Tag('C', k)) == Ok(Consumed(Tag('H', k), [ws[k]], [bs[k]]))
    requires NodeEffect(nodes[2 * k + 1], 2 * k + 1, inits, Tag('H', k)) == Ok(Consumed(Tag('C', k + 1), [], []))
    ensures WalkFrom(nodes, inits, Tag('H', |ws| - 1), 2 * k, Tag('C', k), ws[..k], bs[..k])
         == WalkFrom(nodes, inits, Tag('H', |ws| - 1), 2 * (k + 1), Tag('C', k + 1), ws[..k + 1], bs[..k + 1])
  {
    var out := Tag('H', |ws| - 1);
    PrefixGrows(ws, k);
    PrefixGrows(bs, k);
    ConsumedStep(nodes, inits, out, 2 * k, 2 * k + 1, Tag('C', k), ws[..k], bs[..k], Tag('H', k), [ws[k]], [bs[k]],
                 ws[..k + 1], bs[..k + 1]);
    assert Tag('C', k + 1) != out &&
           NodeEffect(nodes[2 * k + 1], 2 * k + 1, inits, Tag('H', k)) == Ok(Consumed(Tag('C', k + 1), [], []));
    ConsumedStep(nodes, inits, out, 2 * k + 1, 2 * (k + 1), Tag('H', k), ws[..k + 1], bs[..k + 1], Tag('C', k + 1),
                 [], [], ws[..k + 1], bs[..k + 1]);
  }

  /**
   * Over any nodes whose blocks behave as the chain's do: from block `k` on,
   * with the first `k` layers taken, the walk takes the remaining ones in
   * order and stops at the last block's Gemm node.
   */
  lemma {:induction false} BlockWalk(nodes: seq<Node>, inits: seq<Initializer>, ws: seq<Tensor>, bs: seq<Tensor>, k: nat)
    requires |ws| == |bs| && |nodes| == 2 * |ws| && k < |ws|
    requires forall j {:trigger ws[j]} :: 0 <= j < |ws| ==>
      NodeEffect(nodes[2 * j], 2 * j, inits, Tag('C', j)) == Ok(Consumed(Tag('H', j), [ws[j]], [bs[j]]))
    requires forall j {:trigger Tag('H', j)} :: 0 <= j < |ws| ==>
      NodeEffect(nodes[2 * j + 1], 2 * j + 1, inits, Tag('H', j)) == Ok(Consumed(Tag('C', j + 1), [], []))
    ensures WalkFrom(nodes, inits, Tag('H', |ws| - 1), 2 * k, Tag('C', k), ws[..k], bs[..k])
         == Ok(Walk(Tag('H', |ws| - 1), ws, bs, ReachedOutput(2 * (|ws| - 1))))
    decreases |ws| - k
  {
    assert NodeEffect(nodes[2 * k], 2 * k, inits, Tag('C', k)) == Ok(Consumed(Tag('H', k), [ws[k]], [bs[k]]));
    if k == |ws| - 1 {
      PrefixGrows(ws, k);
      PrefixGrows(bs, k);
      ConsumedStep(nodes, inits, Tag('H', k), 2 * k, 2 * k + 1, Tag('C', k), ws[..k], bs[..k], Tag('H', k), [ws[k]], [bs[k]],
                   ws, bs);
    } else {
      assert NodeEffect(nodes[2 * k + 1], 2 * k + 1, inits, Tag('H', k)) == Ok(Consumed(Tag('C', k + 1), [], []));
      BlockStep(nodes, inits, ws, bs, k);
      BlockWalk(nodes, inits, ws, bs, k + 1);
    }
  }

  /**
   * A chain of N blocks converts to its N stored layers in chain order: N
   * weights (transposed when asked) and N biases, and defaults sized by the
   * first weight.
   */
  lemma ChainConversion(ws: seq<Tensor>, bs: seq<Tensor>, args: NormalizationArgs, takeTranspose: bool)
    requires 0 < |ws| == |bs|
    ensures var weights := if takeTranspose then TransposeAll(ws) else ws;
            Convert(Chain(ws, bs), args, "", "", takeTranspose)
              == Written(WriterCall(weights, bs, FillNormalization(Length(weights[0]), args)))
  {
    ChainGemmEffects(ws, bs);
    ChainReluEffects(ws, bs);
    BlockWalk(ChainNodes(|ws|), ChainInits(ws, bs), ws, bs, 0);
    assert ws[..0] == [] && bs[..0] == [];
  }
}
