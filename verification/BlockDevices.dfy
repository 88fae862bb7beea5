/**
 Flattening the block-device tree of `lsblk`: one entry per device, parents first, where a
 device without a value of its own for certain fields takes over its parent's.
 */
module BlockDevices {

  datatype Value = Null | Text(text: string) | Flag(flag: bool) | Number(number: int)

  type Fields = map<string, Value>

  datatype Device = Device(fields: Fields, children: seq<Device>)

  datatype MaybeFields = Root | Under(parent: Fields)

  const INHERITED := ["model", "serial", "tran", "path", "kname", "rota"]

  /** Python truth. */
  predicate Truthy(v: Value)
  {
    match v
    case Null => false
    case Text(s) => s != ""
    case Flag(b) => b
    case Number(n) => n != 0
  }

  /** A field that is not there reads as null. */
  function Get(fields: Fields, key: string): Value
  {
    if key in fields then fields[key] else Null
  }

  function Either(a: Value, b: Value): Value
  {
    if Truthy(a) then a else b
  }

  function Inherit(fields: Fields, parent: Fields, keys: seq<string>): Fields
  {
    if keys == [] then fields
    else
      var k := keys[|keys| - 1];
      var rest := Inherit(fields, parent, keys[..|keys| - 1]);
      if Truthy(Get(rest, k)) then rest else rest[k := Get(parent, k)]
  }

  function Merge(fields: Fields, above: MaybeFields): Fields
  {
    match above
    case Root =>
      fields["_physical_kname" := Get(fields, "kname")]["_physical_path" := Get(fields, "path")]
    case Under(parent) =>
      Inherit(fields, parent, INHERITED)
        ["_physical_kname" := Either(Get(parent, "_physical_kname"), Get(parent, "kname"))]
        ["_physical_path" := Either(Get(parent, "_physical_path"), Get(parent, "path"))]
  }

  function Flatten(node: Device, above: MaybeFields): seq<Fields>
    decreases node, 0
  {
    var merged := Merge(node.fields, above);
    [merged] + FlattenAll(node.children, Under(merged))
  }

  function FlattenAll(nodes: seq<Device>, above: MaybeFields): seq<Fields>
    decreases nodes, 1
  {
    if nodes == [] then []
    else FlattenAll(nodes[..|nodes| - 1], above) + Flatten(nodes[|nodes| - 1], above)
  }

  /** The list the recursion appends to. */
  class Flattener {
    var flattened: seq<Fields>

    constructor ()
      ensures flattened == []
    {
      flattened := [];
    }

    method MergeInto(fields: Fields, above: MaybeFields) returns (merged: Fields)
      ensures merged == Merge(fields, above)
    {
      merged := fields;
      match above {
        case Root =>
          merged := merged["_physical_kname" := Get(merged, "kname")];
          merged := merged["_physical_path" := Get(fields, "path")];
        case Under(parent) =>
          for i := 0 to |INHERITED|
            invariant merged == Inherit(fields, parent, INHERITED[..i])
          {
            assert INHERITED[..i + 1][..i] == INHERITED[..i];
            if !Truthy(Get(merged, INHERITED[i])) {
              merged := merged[INHERITED[i] := Get(parent, INHERITED[i])];
            }
          }
          assert INHERITED[..|INHERITED|] == INHERITED;
          merged := merged["_physical_kname" := Either(Get(parent, "_physical_kname"), Get(parent, "kname"))];
          merged := merged["_physical_path" := Either(Get(parent, "_physical_path"), Get(parent, "path"))];
      }
    }

    method Visit(node: Device, above: MaybeFields)
      modifies this
      ensures flattened == old(flattened) + Flatten(node, above)
      decreases node
    {
      var merged := MergeInto(node.fields, above);
      flattened := flattened + [merged];
      ghost var start := flattened;
      for i := 0 to |node.children|
        invariant flattened == start + FlattenAll(node.children[..i], Under(merged))
      {
        assert node.children[..i + 1][..i] == node.children[..i];
        Visit(node.children[i], Under(merged));
      }
      assert node.children[..|node.children|] == node.children;
    }
  }

  method FlattenLsblk(nodes: seq<Device>) returns (flattened: seq<Fields>)
    ensures flattened == FlattenAll(nodes, Root)
  {
    var f := new Flattener();
    for i := 0 to |nodes|
      invariant f.flattened == FlattenAll(nodes[..i], Root)
    {
      assert nodes[..i + 1][..i] == nodes[..i];
      f.Visit(nodes[i], Root);
    }
    assert nodes[..|nodes|] == nodes;
    flattened := f.flattened;
  }

  // ---------------------------------------------------------------- the plain definition

  /** The raw fields of a device and of everything above it, root first. */
  type Chain = c: seq<Fields> | |c| > 0 witness [map[]]

  /** The chains of all devices, parents before children, in reading order. */
  function Chains(node: Device, above: seq<Fields>): seq<Chain>
    decreases node, 0
  {
    var chain: Chain := above + [node.fields];
    [chain] + ChainsAll(node.children, chain)
  }

  function ChainsAll(nodes: seq<Device>, above: seq<Fields>): seq<Chain>
    decreases nodes, 1
  {
    if nodes == [] then []
    else ChainsAll(nodes[..|nodes| - 1], above) + Chains(nodes[|nodes| - 1], above)
  }

  function CountAll(nodes: seq<Device>): nat
    decreases nodes, 1
  {
    if nodes == [] then 0 else CountAll(nodes[..|nodes| - 1]) + Count(nodes[|nodes| - 1])
  }

  function Count(node: Device): nat
    decreases node, 0
  {
    1 + CountAll(node.children)
  }

  /** v is the value nearest to the device that counts as present, or the root's own when none does. */
  ghost predicate IsNearest(chain: Chain, key: string, v: Value)
  {
    if NoneTruthy(chain, key) then v == Get(chain[0], key)
    else exists j :: 0 <= j < |chain| && Truthy(Get(chain[j], key)) && v == Get(chain[j], key)
                     && forall i :: j < i < |chain| ==> !Truthy(Get(chain[i], key))
  }

  /** v is the value nearest to the root that counts as present, or the root's own when none does. */
  ghost predicate IsTopmost(chain: Chain, key: string, v: Value)
  {
    if NoneTruthy(chain, key) then v == Get(chain[0], key)
    else exists j :: 0 <= j < |chain| && Truthy(Get(chain[j], key)) && v == Get(chain[j], key)
                     && forall i :: 0 <= i < j ==> !Truthy(Get(chain[i], key))
  }

  ghost predicate NoneTruthy(chain: Chain, key: string)
  {
    forall i :: 0 <= i < |chain| ==> !Truthy(Get(chain[i], key))
  }

  predicate IsPhysical(key: string)
  {
    key == "_physical_kname" || key == "_physical_path"
  }

  predicate TakenOver(key: string)
  {
    key == "model" || key == "serial" || key == "tran" || key == "path" || key == "kname" || key == "rota"
  }

  lemma InheritedKeys(k: string)
    ensures k in INHERITED <==> TakenOver(k)
  {
    assert INHERITED[0] == "model" && INHERITED[1] == "serial" && INHERITED[2] == "tran";
    assert INHERITED[3] == "path" && INHERITED[4] == "kname" && INHERITED[5] == "rota";
  }

  /** What the flattened entry of a device must hold, said of its chain alone. */
  ghost predicate Describes(entry: Fields, chain: Chain)
  {
    && (forall k :: TakenOver(k) ==> IsNearest(chain, k, Get(entry, k)))
    && (forall k :: !TakenOver(k) && !IsPhysical(k) ==> Get(entry, k) == Get(chain[|chain| - 1], k))
    && (if |chain| == 1 then
          && Get(entry, "_physical_kname") == Get(chain[0], "kname")
          && Get(entry, "_physical_path") == Get(chain[0], "path")
        else
          && IsTopmost(chain[..|chain| - 1], "kname", Get(entry, "_physical_kname"))
          && IsTopmost(chain[..|chain| - 1], "path", Get(entry, "_physical_path")))
  }

  ghost predicate DescribesAbove(above: MaybeFields, chain: seq<Fields>)
  {
    match above
    case Root => chain == []
    case Under(parent) => chain != [] && Describes(parent, chain)
  }

  // ---------------------------------------------------------------- agreement

  lemma {:induction false} InheritAt(fields: Fields, parent: Fields, keys: seq<string>, k: string)
    requires forall i, j :: 0 <= i < j < |keys| ==> keys[i] != keys[j]
    ensures Get(Inherit(fields, parent, keys), k)
         == if k in keys then Either(Get(fields, k), Get(parent, k)) else Get(fields, k)
  {
    if keys != [] {
      var last := keys[|keys| - 1];
      InheritAt(fields, parent, keys[..|keys| - 1], k);
      assert k in keys <==> k in keys[..|keys| - 1] || k == last;
    }
  }

  lemma NearestStep(chain: Chain, own: Fields, key: string, up: Value)
    requires IsNearest(chain, key, up)
    ensures IsNearest(chain + [own], key, Either(Get(own, key), up))
  {
    var longer: Chain := chain + [own];
    assert longer[|chain|] == own;
    forall i | 0 <= i < |chain| ensures longer[i] == chain[i] {
    }
    if Truthy(Get(own, key)) {
    } else if NoneTruthy(chain, key) {
      assert NoneTruthy(longer, key);
    } else {
      var j :| 0 <= j < |chain| && Truthy(Get(chain[j], key)) && up == Get(chain[j], key)
               && forall i :: j < i < |chain| ==> !Truthy(Get(chain[i], key));
      assert Truthy(Get(longer[j], key));
    }
  }

  /** The parent's physical value, or failing that its merged one, is the topmost of its chain. */
  lemma TopmostStep(chain: Chain, key: string, physical: Value, merged: Value)
    requires IsNearest(chain, key, merged)
    requires if |chain| == 1 then physical == Get(chain[0], key) else IsTopmost(chain[..|chain| - 1], key, physical)
    ensures IsTopmost(chain, key, Either(physical, merged))
  {
    if |chain| > 1 {
      var front: Chain := chain[..|chain| - 1];
      if NoneTruthy(front, key) {
        TopmostOfLast(chain, key, merged);
        assert !Truthy(physical);
      } else {
        var j :| 0 <= j < |front| && Truthy(Get(front[j], key)) && physical == Get(front[j], key)
                 && forall i :: 0 <= i < j ==> !Truthy(Get(front[i], key));
        assert Truthy(Get(chain[j], key));
        assert forall i :: 0 <= i < j ==> !Truthy(Get(chain[i], key)) by {
          assert forall i :: 0 <= i < j ==> front[i] == chain[i];
        }
      }
    } else {
      TopmostOfLast(chain, key, merged);
    }
  }

  lemma TopmostOfLast(chain: Chain, key: string, merged: Value)
    requires IsNearest(chain, key, merged)
    requires forall i :: 0 <= i < |chain| - 1 ==> !Truthy(Get(chain[i], key))
    ensures IsTopmost(chain, key, merged)
  {
  }

  lemma MergedAt(fields: Fields, parent: Fields, k: string)
    requires !IsPhysical(k)
    ensures Get(Merge(fields, Under(parent)), k)
         == if TakenOver(k) then Either(Get(fields, k), Get(parent, k)) else Get(fields, k)
  {
    InheritAt(fields, parent, INHERITED, k);
    InheritedKeys(k);
  }

  lemma MergeUnder(fields: Fields, parent: Fields, chain: Chain)
    requires Describes(parent, chain)
    ensures Describes(Merge(fields, Under(parent)), chain + [fields])
  {
    hide IsNearest, IsTopmost, Either;
    var merged := Merge(fields, Under(parent));
    var longer: Chain := chain + [fields];
    assert longer[..|longer| - 1] == chain;
    TopmostStep(chain, "kname", Get(parent, "_physical_kname"), Get(parent, "kname"));
    TopmostStep(chain, "path", Get(parent, "_physical_path"), Get(parent, "path"));
    hide Merge, Inherit;
    forall k | TakenOver(k) ensures IsNearest(longer, k, Get(merged, k)) {
      assert !IsPhysical(k);
      MergedAt(fields, parent, k);
      NearestStep(chain, fields, k, Get(parent, k));
    }
    forall k | !TakenOver(k) && !IsPhysical(k) ensures Get(merged, k) == Get(fields, k) {
      MergedAt(fields, parent, k);
    }
  }

  lemma MergeRoot(fields: Fields)
    ensures Describes(Merge(fields, Root), [fields])
  {
    hide IsTopmost, Truthy, TakenOver;
    forall k ensures IsNearest([fields], k, Get(fields, k)) {
    }
    forall k | !IsPhysical(k) ensures Get(Merge(fields, Root), k) == Get(fields, k) {
    }
    forall k | TakenOver(k) ensures !IsPhysical(k) {
      NotPhysical(k);
    }
  }

  lemma NotPhysical(k: string)
    ensures TakenOver(k) ==> !IsPhysical(k)
  {
  }

  lemma MergeDescribes(fields: Fields, above: MaybeFields, chain: seq<Fields>)
    requires DescribesAbove(above, chain)
    ensures Describes(Merge(fields, above), chain + [fields])
  {
    match above {
      case Root =>
        assert chain + [fields] == [fields];
        hide Describes, Inherit;
        MergeRoot(fields);
      case Under(parent) =>
        hide Describes, Merge;
        MergeUnder(fields, parent, chain);
    }
  }

  ghost predicate DescribesEach(entries: seq<Fields>, chains: seq<Chain>)
  {
    |entries| == |chains| && forall i :: 0 <= i < |entries| ==> Describes(entries[i], chains[i])
  }

  lemma DescribesJoin(a: seq<Fields>, b: seq<Fields>, c: seq<Chain>, d: seq<Chain>)
    requires DescribesEach(a, c) && DescribesEach(b, d)
    ensures DescribesEach(a + b, c + d)
  {
    hide Describes;
  }

  lemma {:induction false} FlattenDescribes(node: Device, above: MaybeFields, chain: seq<Fields>)
    requires DescribesAbove(above, chain)
    ensures DescribesEach(Flatten(node, above), Chains(node, chain))
    ensures |Chains(node, chain)| == Count(node)
    decreases node, 0
  {
    hide Describes, Merge;
    var merged := Merge(node.fields, above);
    var longer: Chain := chain + [node.fields];
    MergeDescribes(node.fields, above, chain);
    FlattenAllDescribes(node.children, Under(merged), longer);
    DescribesJoin([merged], FlattenAll(node.children, Under(merged)), [longer], ChainsAll(node.children, longer));
  }

  /** Flattening any forest: one entry per device, parents first, each as its chain prescribes. */
  lemma {:induction false} FlattenAllDescribes(nodes: seq<Device>, above: MaybeFields, chain: seq<Fields>)
    requires DescribesAbove(above, chain)
    ensures DescribesEach(FlattenAll(nodes, above), ChainsAll(nodes, chain))
    ensures |ChainsAll(nodes, chain)| == CountAll(nodes)
    decreases nodes, 1
  {
    hide DescribesAbove, Flatten, Chains;
    if nodes != [] {
      var front, last := nodes[..|nodes| - 1], nodes[|nodes| - 1];
      FlattenAllDescribes(front, above, chain);
      FlattenDescribes(last, above, chain);
      DescribesJoin(FlattenAll(front, above), Flatten(last, above), ChainsAll(front, chain), Chains(last, chain));
    } else {
      assert DescribesEach([], []);
    }
  }
}
