/**
 * The pre-parsed computation graph the converter reads: its nodes in
 * declaration order, its named initializers (as a sequence, since the
 * converter's lookups depend on their order and on duplicate names), and the
 * names of its declared graph inputs and outputs.
 */
module OnnxGraph {
  import opened Wrappers
  import opened Tensors

  /** One node attribute: its name, its float field `f` and its integer field `i`. */
  datatype Attribute = Attribute(name: string, f: real, i: int)

  datatype Node = Node(
    opType: string,
    inputs: seq<string>,
    outputs: seq<string>,
    attributes: seq<Attribute>)

  /** A named constant array bundled with the graph. */
  datatype Initializer = Initializer(name: string, value: Tensor)

  datatype Graph = Graph(
    inputs: seq<string>,
    outputs: seq<string>,
    nodes: seq<Node>,
    initializers: seq<Initializer>)

  /** `name in [i.name for i in graph.initializer]` */
  predicate HasInitializer(inits: seq<Initializer>, name: string)
  {
    exists k :: 0 <= k < |inits| && inits[k].name == name
  }

  /**
   * `[to_array(i) for i in graph.initializer if i.name == name]`: the values of
   * all initializers with that name, in declaration order.
   */
  function ValuesNamed(inits: seq<Initializer>, name: string): (r: seq<Tensor>)
    ensures |r| <= |inits|
    ensures r == [] <==> !HasInitializer(inits, name)
    ensures forall t :: t in r <==> exists k :: 0 <= k < |inits| && inits[k].name == name && inits[k].value == t
  {
    if inits == [] then []
    else
      var rest := ValuesNamed(inits[1..], name);
      assert forall k :: 1 <= k < |inits| ==> inits[k] == inits[1..][k - 1];
      if inits[0].name == name then [inits[0].value] + rest else rest
  }

  /**
   * `[...][0]` over that list: the value of the first initializer with the
   * name, or `None` where the Python indexing raises.
   */
  function FirstNamed(inits: seq<Initializer>, name: string): (r: Option<Tensor>)
    ensures r.None? <==> !HasInitializer(inits, name)
    ensures r.Some? ==>
      exists k :: 0 <= k < |inits| && inits[k].name == name && inits[k].value == r.value &&
        forall k' :: 0 <= k' < k ==> inits[k'].name != name
  {
    var all := ValuesNamed(inits, name);
    if all == [] then None
    else
      FirstIsEarliest(inits, name);
      Some(all[0])
  }

  /** The head of `ValuesNamed` comes from the earliest initializer with the name. */
  lemma {:induction false} FirstIsEarliest(inits: seq<Initializer>, name: string)
    requires HasInitializer(inits, name)
    ensures exists k :: 0 <= k < |inits| && inits[k].name == name &&
                        inits[k].value == ValuesNamed(inits, name)[0] &&
                        forall k' :: 0 <= k' < k ==> inits[k'].name != name
  {
    if inits[0].name != name {
      var k0 :| 0 <= k0 < |inits| && inits[k0].name == name;
      assert inits[1..][k0 - 1].name == name;
      FirstIsEarliest(inits[1..], name);
      var k :| 0 <= k < |inits[1..]| && inits[1..][k].name == name &&
        inits[1..][k].value == ValuesNamed(inits[1..], name)[0] &&
        forall k' :: 0 <= k' < k ==> inits[1..][k'].name != name;
      assert inits[k + 1] == inits[1..][k];
      forall k' | 0 <= k' < k + 1
        ensures inits[k'].name != name
      {
        if k' > 0 { assert inits[k'] == inits[1..][k' - 1]; }
      }
    }
  }

  /** Looking the name up in two concatenated initializer lists concatenates the results. */
  lemma {:induction false} ValuesNamedAppend(a: seq<Initializer>, b: seq<Initializer>, name: string)
    ensures ValuesNamed(a + b, name) == ValuesNamed(a, name) + ValuesNamed(b, name)
  {
    if a == [] {
      assert a + b == b;
    } else {
      assert (a + b)[1..] == a[1..] + b;
      ValuesNamedAppend(a[1..], b, name);
    }
  }

  /** A single initializer contributes its value exactly when its name matches. */
  lemma ValuesNamedSingle(init: Initializer, name: string)
    ensures ValuesNamed([init], name) == if init.name == name then [init.value] else []
  {
  }
}
