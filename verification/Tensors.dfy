/** Tensors as stored on disk, and the names under which a model's tensors are saved: two model-wide ones and a
    numbered group per layer, all different. */
module Tensors {
  import opened Bytes
  import opened Encoding

  const F32: nat := 0
  const F16: nat := 1
  const BF16: nat := 30
  const I2_S: nat := 36

  /** Shape innermost first; `data` is the raw storage. The scale field is not stored by either format. */
  datatype Tensor = Tensor(shape: seq<nat>, dtype: nat, data: Bytes)

  function Elements(shape: seq<nat>): nat {
    if |shape| == 0 then 1 else shape[0] * Elements(shape[1..])
  }

  function TypeSize(dtype: nat): nat {
    if dtype == F32 then 4
    else if dtype in [F16, 2, 3, 6, 7, 8, 9, BF16] then 2
    else 1
  }

  /** The number of bytes the Tensor constructor allocates. */
  function StorageSize(shape: seq<nat>, dtype: nat): nat {
    if dtype == I2_S then (Elements(shape) + 127) / 128 * 32 + 4
    else Elements(shape) * TypeSize(dtype)
  }

  datatype Layer = Layer(attnNorm: Tensor, wq: Tensor, wk: Tensor, wv: Tensor, wo: Tensor, attnSubNorm: Tensor,
                         ffnNorm: Tensor, wGate: Tensor, wUp: Tensor, wDown: Tensor, ffnSubNorm: Tensor)

  datatype Named = Named(name: Bytes, t: Tensor)

  function Datas(items: seq<Named>): (d: seq<Bytes>)
    ensures |d| == |items|
  {
    seq(|items|, i requires 0 <= i < |items| => items[i].t.data)
  }

  predicate Distinct(items: seq<Named>) {
    forall i, j :: 0 <= i < j < |items| ==> items[i].name != items[j].name
  }

  // ----- names of the form blk.<layer>.<suffix> -----

  const BLK: Bytes := [98, 108, 107, 46]

  function BlkName(l: nat, suffix: Bytes): Bytes {
    BLK + Decimal(l) + [DOT] + suffix
  }

  lemma SplitAtDot(a: Bytes, s: Bytes, b: Bytes, t: Bytes)
    requires DOT !in a && DOT !in b && a + [DOT] + s == b + [DOT] + t
    ensures a == b && s == t
  {
    var x, y := a + [DOT] + s, b + [DOT] + t;
    assert x[|a|] == DOT && y[|b|] == DOT;
    assert forall i :: 0 <= i < |a| ==> x[i] != DOT;
    assert forall i :: 0 <= i < |b| ==> y[i] != DOT;
    assert |a| == |b|;
    assert a == x[..|a|] && b == y[..|b|] && s == x[|a| + 1..] && t == y[|b| + 1..];
  }

  /** Layer number and suffix can be read off the name. */
  lemma BlkNameInjective(l: nat, s: Bytes, m: nat, t: Bytes)
    requires BlkName(l, s) == BlkName(m, t)
    ensures l == m && s == t
  {
    var x, y := Decimal(l) + [DOT] + s, Decimal(m) + [DOT] + t;
    assert BlkName(l, s) == BLK + x && BlkName(m, t) == BLK + y;
    assert x == (BLK + x)[4..] && y == (BLK + y)[4..];
    SplitAtDot(Decimal(l), s, Decimal(m), t);
    DecimalInjective(l, m);
  }

  /** The items of one layer, named after its number. */
  function Label(l: nat, items: seq<Named>): (r: seq<Named>)
    ensures |r| == |items|
  {
    seq(|items|, i requires 0 <= i < |items| => Named(BlkName(l, items[i].name), items[i].t))
  }

  lemma LabelDistinct(l: nat, items: seq<Named>)
    requires Distinct(items)
    ensures Distinct(Label(l, items))
  {
    var r := Label(l, items);
    forall i, j | 0 <= i < j < |r| ensures r[i].name != r[j].name {
      if r[i].name == r[j].name { BlkNameInjective(l, items[i].name, l, items[j].name); }
    }
  }

  /** All layers from number l on. */
  function LabelAll(l: nat, layers: seq<seq<Named>>): seq<Named>
    decreases layers
  {
    if |layers| == 0 then [] else Label(l, layers[0]) + LabelAll(l + 1, layers[1..])
  }

  lemma {:induction false} LabelAllAppend(l: nat, layers: seq<seq<Named>>, items: seq<Named>)
    ensures LabelAll(l, layers + [items]) == LabelAll(l, layers) + Label(l + |layers|, items)
    decreases layers
  {
    if |layers| == 0 {
      assert layers + [items] == [items] && [items][1..] == [];
      assert LabelAll(l, [items]) == Label(l, items) + LabelAll(l + 1, []);
    } else {
      assert (layers + [items])[1..] == layers[1..] + [items];
      LabelAllAppend(l + 1, layers[1..], items);
      Assoc(Label(l, layers[0]), LabelAll(l + 1, layers[1..]), Label(l + |layers|, items));
    }
  }

  ghost predicate NamedFrom(name: Bytes, l: nat) {
    exists m: nat, s: Bytes :: m >= l && name == BlkName(m, s)
  }

  lemma {:induction false} LabelAllFrom(l: nat, layers: seq<seq<Named>>, i: nat)
    requires i < |LabelAll(l, layers)|
    ensures NamedFrom(LabelAll(l, layers)[i].name, l)
    decreases layers
  {
    var head := Label(l, layers[0]);
    if i < |head| {
      assert LabelAll(l, layers)[i] == head[i];
    } else {
      LabelAllFrom(l + 1, layers[1..], i - |head|);
      assert LabelAll(l, layers)[i] == LabelAll(l + 1, layers[1..])[i - |head|];
    }
  }

  lemma DistinctConcat(a: seq<Named>, b: seq<Named>)
    requires Distinct(a) && Distinct(b)
    requires forall i, j :: 0 <= i < |a| && 0 <= j < |b| ==> a[i].name != b[j].name
    ensures Distinct(a + b)
  {
  }

  lemma {:induction false} LabelAllDistinct(l: nat, layers: seq<seq<Named>>)
    requires forall k :: 0 <= k < |layers| ==> Distinct(layers[k])
    ensures Distinct(LabelAll(l, layers))
    decreases layers
  {
    if |layers| > 0 {
      var head, rest := Label(l, layers[0]), LabelAll(l + 1, layers[1..]);
      LabelDistinct(l, layers[0]);
      LabelAllDistinct(l + 1, layers[1..]);
      forall i, j | 0 <= i < |head| && 0 <= j < |rest| ensures head[i].name != rest[j].name {
        LabelAllFrom(l + 1, layers[1..], j);
        FromIsNot(rest[j].name, l, layers[0][i].name);
      }
      DistinctConcat(head, rest);
    }
  }

  lemma FromIsNot(name: Bytes, l: nat, s: Bytes)
    requires NamedFrom(name, l + 1)
    ensures name != BlkName(l, s)
  {
    var m, t :| m >= l + 1 && name == BlkName(m, t);
    if name == BlkName(l, s) { BlkNameInjective(l, s, m, t); }
  }

  /** Two model-wide tensors whose names do not start with 'b', followed by the layers. */
  lemma {:induction false} ModelNamesDistinct(globals: seq<Named>, layers: seq<seq<Named>>)
    requires Distinct(globals)
    requires forall i :: 0 <= i < |globals| ==> |globals[i].name| > 0 && globals[i].name[0] != BLK[0]
    requires forall k :: 0 <= k < |layers| ==> Distinct(layers[k])
    ensures Distinct(globals + LabelAll(0, layers))
  {
    LabelAllDistinct(0, layers);
    var rest := LabelAll(0, layers);
    forall i, j | 0 <= i < |globals| && 0 <= j < |rest| ensures globals[i].name != rest[j].name {
      LabelAllFrom(0, layers, j);
      var m, t :| m >= 0 && rest[j].name == BlkName(m, t);
      assert rest[j].name[0] == BLK[0];
    }
    DistinctConcat(globals, rest);
  }
}
