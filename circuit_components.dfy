/** `CircuitComponent`, `AdjointView` and `DualView` (mrmustard/lab_dev/circuit_components.py): the
  * wire bookkeeping of circuit components. The `Wires` class is not part of this model; its state
  * is modelled as four groups of modes (output bra, input bra, output ket, input ket), each kept
  * ascending, and a wire's index is its position in that order. Representations are an opaque
  * type whose arithmetic is passed in; their `reorder`, `conj` and `@` are not part of this
  * model. */
module CircuitComponents {
  import opened Wrappers
  import opened Seqs

  // ---------------------------------------------------------------------------------------------
  // Wires
  // ---------------------------------------------------------------------------------------------

  datatype Group = OutBra | InBra | OutKet | InKet

  datatype Wires = Wires(outBra: seq<int>, inBra: seq<int>, outKet: seq<int>, inKet: seq<int>)
  {
    /** Every group lists its modes once, ascending. */
    predicate Valid()
    {
      StrictlyIncreasing(outBra) && StrictlyIncreasing(inBra)
      && StrictlyIncreasing(outKet) && StrictlyIncreasing(inKet)
    }

    function Modes(g: Group): seq<int>
    {
      match g
      case OutBra => outBra
      case InBra => inBra
      case OutKet => outKet
      case InKet => inKet
    }

    /** `wires.ket` and `wires.bra` are truthy when they hold a wire. */
    predicate HasKet() { |outKet| > 0 || |inKet| > 0 }
    predicate HasBra() { |outBra| > 0 || |inBra| > 0 }

    /** `len(wires)`. */
    function Count(): nat { |outBra| + |inBra| + |outKet| + |inKet| }

    /** `len(wires.input)` and `len(wires.output)`. */
    function InputCount(): nat { |inBra| + |inKet| }
    function OutputCount(): nat { |outBra| + |outKet| }

    /** `sorted(wires.modes)`: every mode on some wire, ascending. */
    function AllModes(): (r: seq<int>)
      ensures StrictlyIncreasing(r)
      ensures forall m :: m in r <==> m in outBra || m in inBra || m in outKet || m in inKet
    {
      SortedSet(outBra + inBra + outKet + inKet)
    }

    /** `wires.adjoint`: ket and bra trade places. */
    function Adjoint(): (r: Wires)
      ensures r.outBra == outKet && r.inBra == inKet && r.outKet == outBra && r.inKet == inBra
    {
      Wires(outKet, inKet, outBra, inBra)
    }

    /** `wires.dual`: input and output trade places. */
    function Dual(): (r: Wires)
      ensures r.outBra == inBra && r.inBra == outBra && r.outKet == inKet && r.inKet == outKet
    {
      Wires(inBra, outBra, inKet, outKet)
    }

    /** The index of the first wire of a group in the standard order. */
    function Offset(g: Group): (r: nat)
      ensures r + |Modes(g)| <= Count()
    {
      match g
      case OutBra => 0
      case InBra => |outBra|
      case OutKet => |outBra| + |inBra|
      case InKet => |outBra| + |inBra| + |outKet|
    }

    /** The wire at index i: its group and mode. */
    function WireAt(i: nat): (r: (Group, int))
      requires i < Count()
      ensures Offset(r.0) <= i < Offset(r.0) + |Modes(r.0)| && r.1 == Modes(r.0)[i - Offset(r.0)]
    {
      if i < |outBra| then (OutBra, outBra[i])
      else if i < |outBra| + |inBra| then (InBra, inBra[i - |outBra|])
      else if i < |outBra| + |inBra| + |outKet| then (OutKet, outKet[i - |outBra| - |inBra|])
      else (InKet, inKet[i - |outBra| - |inBra| - |outKet|])
    }

    /** `wires.<group>[m].indices` for one mode: the index of the group's wire on mode m. */
    function Index(g: Group, m: int): (r: nat)
      requires m in Modes(g)
      ensures r < Count() && WireAt(r) == (g, m)
    {
      var k := IndexOf(Modes(g), m);
      var r := Offset(g) + k;
      assert r - Offset(g) == k;
      r
    }

    /** The wire indices of the modes `ms` of group `g`, in the order of `ms`. */
    function Indices(g: Group, ms: seq<int>): (r: seq<nat>)
      requires forall m | m in ms :: m in Modes(g)
      ensures |r| == |ms| && forall k | 0 <= k < |ms| :: r[k] < Count() && WireAt(r[k]) == (g, ms[k])
    {
      seq(|ms|, k requires 0 <= k < |ms| => Index(g, ms[k]))
    }
  }

  /** The position of the first occurrence of x in s. */
  function IndexOf(s: seq<int>, x: int): (r: nat)
    requires x in s
    ensures r < |s| && s[r] == x && forall j | 0 <= j < r :: s[j] != x
  {
    if s[0] == x then 0 else 1 + IndexOf(s[1..], x)
  }

  /** `Wires(set(ob), set(ib), set(ok), set(ik))`. */
  function MakeWires(ob: seq<int>, ib: seq<int>, ok: seq<int>, ik: seq<int>): (r: Wires)
    ensures r.Valid()
    ensures forall m :: (m in r.outBra <==> m in ob) && (m in r.inBra <==> m in ib)
    ensures forall m :: (m in r.outKet <==> m in ok) && (m in r.inKet <==> m in ik)
  {
    Wires(SortedSet(ob), SortedSet(ib), SortedSet(ok), SortedSet(ik))
  }

  lemma WiresInvolutions(w: Wires)
    ensures w.Adjoint().Adjoint() == w && w.Dual().Dual() == w
    ensures w.Adjoint().Dual() == w.Dual().Adjoint()
    ensures w.Adjoint().AllModes() == w.AllModes() && w.Dual().AllModes() == w.AllModes()
  {
    StrictlyIncreasingUnique(w.Adjoint().AllModes(), w.AllModes());
    StrictlyIncreasingUnique(w.Dual().AllModes(), w.AllModes());
  }

  // ---------------------------------------------------------------------------------------------
  // on(modes)
  // ---------------------------------------------------------------------------------------------

  /** A group of `on(modes)`: `set(modes)` on a non-empty group, nothing on an empty one. */
  function OnGroup(group: seq<int>, modes: seq<int>): seq<int>
  {
    if |group| > 0 then SortedSet(modes) else []
  }

  /** Some non-empty group of w has a number of modes other than n. */
  predicate Mismatch(w: Wires, n: nat)
  {
    (|w.outBra| > 0 && |w.outBra| != n) || (|w.inBra| > 0 && |w.inBra| != n)
    || (|w.outKet| > 0 && |w.outKet| != n) || (|w.inKet| > 0 && |w.inKet| != n)
  }

  /** The wires of `on(modes)`: every non-empty group must have as many modes as `set(modes)`
    * (ValueError otherwise), and `set(modes)` then goes on exactly the non-empty groups. */
  function OnWires(w: Wires, modes: seq<int>): (r: Result<Wires>)
    ensures r.Err? <==> Mismatch(w, |SortedSet(modes)|)
    ensures r.Err? ==> r.error == ValueError
    ensures r.Ok? ==>
      (r.value.outBra == OnGroup(w.outBra, modes) && r.value.inBra == OnGroup(w.inBra, modes)
       && r.value.outKet == OnGroup(w.outKet, modes) && r.value.inKet == OnGroup(w.inKet, modes))
  {
    if Mismatch(w, |SortedSet(modes)|) then Err(ValueError)
    else Ok(Wires(OnGroup(w.outBra, modes), OnGroup(w.inBra, modes), OnGroup(w.outKet, modes), OnGroup(w.inKet, modes)))
  }

  /** Remapping a component keeps its wire groups and wire count and puts it on `set(modes)`. */
  lemma OnWiresKeepsLayout(w: Wires, modes: seq<int>)
    requires OnWires(w, modes).Ok?
    ensures var v := OnWires(w, modes).value;
      (v.Valid() && v.Count() == w.Count() && v.HasKet() == w.HasKet() && v.HasBra() == w.HasBra()
       && (w.Count() > 0 ==> forall m :: m in v.AllModes() <==> m in modes))
  {
    var v := OnWires(w, modes).value;
    var s := SortedSet(modes);
    if w.Count() > 0 {
      if |w.outBra| > 0 { assert v.outBra == s; }
      else if |w.inBra| > 0 { assert v.inBra == s; }
      else if |w.outKet| > 0 { assert v.outKet == s; }
      else { assert v.inKet == s; }
    }
  }

  /** A component already on the modes `set(modes)` in every non-empty group is left as it is. */
  lemma OnWiresSameModes(w: Wires, modes: seq<int>)
    requires |w.outBra| > 0 ==> w.outBra == SortedSet(modes)
    requires |w.inBra| > 0 ==> w.inBra == SortedSet(modes)
    requires |w.outKet| > 0 ==> w.outKet == SortedSet(modes)
    requires |w.inKet| > 0 ==> w.inKet == SortedSet(modes)
    ensures OnWires(w, modes) == Ok(w)
  {
    assert !Mismatch(w, |SortedSet(modes)|);
    assert |w.outBra| == 0 ==> w.outBra == [];
    assert |w.inBra| == 0 ==> w.inBra == [];
    assert |w.outKet| == 0 ==> w.outKet == [];
    assert |w.inKet| == 0 ==> w.inKet == [];
  }

  // ---------------------------------------------------------------------------------------------
  // >> dispatch
  // ---------------------------------------------------------------------------------------------

  /** How `s >> o` contracts: `s @ o`, `s @ o @ o.adjoint`, or `s @ s.adjoint @ o`. */
  datatype Plan = SelfOther | SelfOtherOtherAdjoint | SelfSelfAdjointOther

  /** The dispatch table of `>>`: a component with ket and bra wires contracts a ket-and-bra
    * component directly and any other one together with its adjoint; a ket-only (bra-only)
    * component first takes its own adjoint in front of a ket-and-bra component, and contracts a
    * component with ket (bra) wires directly; every other pair raises ValueError. */
  function RShiftPlan(s: Wires, o: Wires): (r: Result<Plan>)
    ensures s.HasKet() && s.HasBra() ==>
      r == Ok(if o.HasKet() && o.HasBra() then SelfOther else SelfOtherOtherAdjoint)
    ensures s.HasKet() != s.HasBra() && o.HasKet() && o.HasBra() ==> r == Ok(SelfSelfAdjointOther)
    ensures s.HasKet() && !s.HasBra() && o.HasKet() && !o.HasBra() ==> r == Ok(SelfOther)
    ensures !s.HasKet() && s.HasBra() && !o.HasKet() && o.HasBra() ==> r == Ok(SelfOther)
    ensures r.Err? <==>
      (!s.HasKet() && !s.HasBra())
      || (s.HasKet() && !s.HasBra() && !o.HasKet())
      || (!s.HasKet() && s.HasBra() && !o.HasBra())
    ensures r.Err? ==> r.error == ValueError
  {
    if s.HasKet() && s.HasBra() then
      if o.HasKet() && o.HasBra() then Ok(SelfOther) else Ok(SelfOtherOtherAdjoint)
    else if s.HasKet() then
      if o.HasKet() && o.HasBra() then Ok(SelfSelfAdjointOther)
      else if o.HasKet() then Ok(SelfOther)
      else Err(ValueError)
    else if s.HasBra() then
      if o.HasKet() && o.HasBra() then Ok(SelfSelfAdjointOther)
      else if o.HasBra() then Ok(SelfOther)
      else Err(ValueError)
    else Err(ValueError)
  }

  /** The table treats ket and bra alike: taking the adjoint of both operands picks the same
    * contraction. */
  lemma {:induction false} RShiftPlanAdjoint(s: Wires, o: Wires)
    ensures RShiftPlan(s.Adjoint(), o.Adjoint()) == RShiftPlan(s, o)
  {
    assert s.Adjoint().HasKet() == s.HasBra() && s.Adjoint().HasBra() == s.HasKet();
    assert o.Adjoint().HasKet() == o.HasBra() && o.Adjoint().HasBra() == o.HasKet();
  }

  // ---------------------------------------------------------------------------------------------
  // _matmul_indices
  // ---------------------------------------------------------------------------------------------

  /** The contracted modes and wire indices of `s @ o`: the bra modes that are outputs of s and
    * inputs of o, then the ket modes likewise, with s's output wire indices `idxZ` and o's
    * matching input wire indices `idxZconj`. */
  datatype Contraction = Contraction(braModes: seq<int>, ketModes: seq<int>, idxZ: seq<int>, idxZconj: seq<int>)

  /** `_matmul_indices`; the modes of `set & set` are taken in ascending order. */
  function MatmulIndices(s: Wires, o: Wires): (r: Contraction)
    requires s.Valid()
    ensures forall m :: m in r.braModes <==> m in s.outBra && m in o.inBra
    ensures forall m :: m in r.ketModes <==> m in s.outKet && m in o.inKet
    ensures |r.idxZ| == |r.idxZconj| == |r.braModes| + |r.ketModes|
    ensures forall k | 0 <= k < |r.idxZ| :: 0 <= r.idxZ[k] < s.Count() && 0 <= r.idxZconj[k] < o.Count()
    ensures forall k | 0 <= k < |r.braModes| ::
      s.WireAt(r.idxZ[k]) == (OutBra, r.braModes[k]) && o.WireAt(r.idxZconj[k]) == (InBra, r.braModes[k])
    ensures forall k | 0 <= k < |r.ketModes| ::
      (s.WireAt(r.idxZ[|r.braModes| + k]) == (OutKet, r.ketModes[k])
       && o.WireAt(r.idxZconj[|r.braModes| + k]) == (InKet, r.ketModes[k]))
  {
    var bra := KeepIn(s.outBra, o.inBra);
    var ket := KeepIn(s.outKet, o.inKet);
    Contraction(bra, ket, s.Indices(OutBra, bra) + s.Indices(OutKet, ket), o.Indices(InBra, bra) + o.Indices(InKet, ket))
  }

  /** Distinct contracted modes on either side lead to distinct wires: no wire is contracted
    * twice. */
  lemma MatmulIndicesDistinct(s: Wires, o: Wires)
    requires s.Valid()
    ensures Distinct(MatmulIndices(s, o).idxZ) && Distinct(MatmulIndices(s, o).idxZconj)
  {
    var r := MatmulIndices(s, o);
    KeepInIncreasing(s.outBra, o.inBra);
    KeepInIncreasing(s.outKet, o.inKet);
    var nb := |r.braModes|;
    forall i, j | 0 <= i < j < |r.idxZ| ensures r.idxZ[i] != r.idxZ[j] && r.idxZconj[i] != r.idxZconj[j] {
      if j < nb {
        assert r.braModes[i] != r.braModes[j];
        assert s.WireAt(r.idxZ[i]) != s.WireAt(r.idxZ[j]);
        assert o.WireAt(r.idxZconj[i]) != o.WireAt(r.idxZconj[j]);
      } else if i < nb {
        assert s.WireAt(r.idxZ[j]) == (OutKet, r.ketModes[j - nb]);
        assert o.WireAt(r.idxZconj[j]) == (InKet, r.ketModes[j - nb]);
      } else {
        assert r.ketModes[i - nb] != r.ketModes[j - nb];
        assert s.WireAt(r.idxZ[j]) == (OutKet, r.ketModes[j - nb]);
        assert s.WireAt(r.idxZ[i]) == (OutKet, r.ketModes[i - nb]);
        assert o.WireAt(r.idxZconj[j]) == (InKet, r.ketModes[j - nb]);
        assert o.WireAt(r.idxZconj[i]) == (InKet, r.ketModes[i - nb]);
      }
    }
  }

  /** Filtering an ascending sequence keeps it ascending. */
  lemma {:induction false} KeepInIncreasing(s: seq<int>, t: seq<int>)
    requires StrictlyIncreasing(s)
    ensures StrictlyIncreasing(KeepIn(s, t))
  {
    if |s| > 0 {
      var p := s[..|s| - 1];
      assert StrictlyIncreasing(p);
      KeepInIncreasing(p, t);
      var k := KeepIn(p, t);
      var last := s[|s| - 1];
      if last in t {
        var kk := k + [last];
        assert KeepIn(s, t) == kk;
        forall i, j | 0 <= i < j < |kk| ensures kk[i] < kk[j] {
          if j == |k| {
            assert kk[i] == k[i] && k[i] in k && k[i] in p;
            var q :| 0 <= q < |p| && p[q] == k[i];
            assert s[q] < s[|s| - 1];
          }
        }
      }
    }
  }

  // ---------------------------------------------------------------------------------------------
  // _combine_fock_shapes
  // ---------------------------------------------------------------------------------------------

  /** The Fock shape entry of a wire id: the entry of the first wire of self with that id, or
    * else of the first wire of other with it; an id on neither raises ValueError. */
  function ShapeOf(id: int, selfIds: seq<int>, selfShape: seq<Option<nat>>,
                   otherIds: seq<int>, otherShape: seq<Option<nat>>): (r: Result<Option<nat>>)
    requires |selfShape| == |selfIds| && |otherShape| == |otherIds|
    ensures r.Err? <==> id !in selfIds && id !in otherIds
    ensures r.Err? ==> r.error == ValueError
    ensures id in selfIds ==> r == Ok(selfShape[IndexOf(selfIds, id)])
    ensures id !in selfIds && id in otherIds ==> r == Ok(otherShape[IndexOf(otherIds, id)])
  {
    if id in selfIds then Ok(selfShape[IndexOf(selfIds, id)])
    else if id in otherIds then Ok(otherShape[IndexOf(otherIds, id)])
    else Err(ValueError)
  }

  /** `_combine_fock_shapes(other, new_wires, perm)`: the shape of every new wire, taken from self
    * where self has the id and from other otherwise, then reordered by perm. */
  method CombineFockShapes(selfIds: seq<int>, selfShape: seq<Option<nat>>,
                           otherIds: seq<int>, otherShape: seq<Option<nat>>,
                           newIds: seq<int>, perm: seq<int>) returns (r: Result<seq<Option<nat>>>)
    requires |selfShape| == |selfIds| && |otherShape| == |otherIds|
    requires AllBelow(perm, |newIds|)
    ensures r.Err? <==> exists k | 0 <= k < |newIds| :: newIds[k] !in selfIds && newIds[k] !in otherIds
    ensures r.Err? ==> r.error == ValueError
    ensures r.Ok? ==>
      (|r.value| == |perm|
       && forall j | 0 <= j < |perm| ::
            Ok(r.value[j]) == ShapeOf(newIds[perm[j]], selfIds, selfShape, otherIds, otherShape))
  {
    var shape: seq<Option<nat>> := [];
    var k := 0;
    while k < |newIds|
      invariant 0 <= k <= |newIds| && |shape| == k
      invariant forall i | 0 <= i < k :: Ok(shape[i]) == ShapeOf(newIds[i], selfIds, selfShape, otherIds, otherShape)
    {
      var s := ShapeOf(newIds[k], selfIds, selfShape, otherIds, otherShape);
      if s.Err? {
        return Err(ValueError);
      }
      shape := shape + [s.value];
      k := k + 1;
    }
    r := Ok(seq(|perm|, j requires 0 <= j < |perm| => shape[perm[j]]));
  }

  // ---------------------------------------------------------------------------------------------
  // Parameters
  // ---------------------------------------------------------------------------------------------

  datatype ParamValue = ScalarValue(x: real) | ArrayValue(entries: seq<real>)

  datatype Parameter = Parameter(name: string, value: ParamValue)

  /** The length check of `_add_parameter`: a scalar value is accepted, an array value must have
    * length 1 or one entry per mode (ValueError otherwise). */
  function ParameterCheck(value: ParamValue, nModes: nat): (r: Outcome)
    ensures r == Pass <==> value.ScalarValue? || |value.entries| == 1 || |value.entries| == nModes
    ensures r.Fail? ==> r.error == ValueError
  {
    match value
    case ScalarValue(_) => Pass
    case ArrayValue(e) => if |e| != 1 && |e| != nModes then Fail(ValueError) else Pass
  }

  /** A component's `ParameterSet`: the parameters added to it, in insertion order. It is an object
    * of its own, so every light copy and view that shares it sees what is added through any of
    * them. */
  class ParameterSet {
    var parameters: seq<Parameter>

    constructor ()
      ensures parameters == []
    {
      parameters := [];
    }

    /** `add_parameter(parameter)`. */
    method AddParameter(p: Parameter)
      modifies this
      ensures parameters == old(parameters) + [p]
    {
      parameters := parameters + [p];
    }
  }

  // ---------------------------------------------------------------------------------------------
  // CircuitComponent
  // ---------------------------------------------------------------------------------------------

  /** Whether a component is a plain component or an adjoint or dual view of another one. */
  datatype ViewKind = NotAView | AdjointKind | DualKind

  class CircuitComponent<R(==)> {
    var name: string
    var representation: R
    /** `_wires`. */
    var wires: Wires
    /** `_parameter_set`, shared by reference with light copies and views. */
    var parameterSet: ParameterSet
    /** The attributes `_add_parameter` stores under the parameters' names. */
    var attributes: map<string, Parameter>
    /** `_fock_shape`, once it has been read or set. */
    var fockShape: Option<seq<Option<nat>>>
    var view: ViewKind
    /** A view's `_component`: a light copy of the component it views. */
    var inner: CircuitComponent?<R>
    /** The wires of `_component`, which a view shows through its adjoint or dual. */
    var innerWires: Wires

    /** A view's light copy is present exactly for a view, and shows the wires recorded for it. */
    predicate Valid()
      reads this, inner
    {
      (view.NotAView? <==> inner == null)
      && (inner != null ==> inner != this && inner.view.NotAView? && inner.inner == null && inner.wires == innerWires)
    }

    /** The `wires` property: `_wires` for a plain component, the adjoint or the dual of the viewed
      * component's wires for a view. */
    function Wires(): (r: Wires)
      reads this
      ensures view.NotAView? ==> r == wires
      ensures view.AdjointKind? ==> r == innerWires.Adjoint()
      ensures view.DualKind? ==> r == innerWires.Dual()
    {
      match view
      case NotAView => wires
      case AdjointKind => innerWires.Adjoint()
      case DualKind => innerWires.Dual()
    }

    /** The `modes` property: the sorted modes of the wires. */
    function Modes(): (r: seq<int>)
      reads this
      ensures StrictlyIncreasing(r)
    {
      Wires().AllModes()
    }

    /** `_from_attributes(name, representation, wires)`, for a plain component. */
    constructor (name: string, representation: R, wires: Wires)
      ensures this.name == name && this.representation == representation && this.wires == wires
      ensures fresh(parameterSet) && parameterSet.parameters == [] && attributes == map[] && fockShape == None
      ensures view == NotAView && inner == null && Valid()
    {
      this.name := name;
      this.representation := representation;
      this.wires := wires;
      parameterSet := new ParameterSet();
      attributes := map[];
      fockShape := None;
      view := NotAView;
      inner := null;
      innerWires := wires;
    }

    /** `light_copy()`: a new object with the same attributes. The parameter set is the same object,
      * shared by reference; the wires are copied (they are values here); the attribute dictionary
      * is a shallow copy, so attributes added later to one object are not seen by the other. */
    method LightCopy() returns (c: CircuitComponent<R>)
      ensures fresh(c)
      ensures c.name == name && c.representation == representation && c.wires == wires
      ensures c.parameterSet == parameterSet && c.attributes == attributes && c.fockShape == fockShape
      ensures c.view == view && c.inner == inner && c.innerWires == innerWires
      ensures Valid() ==> c.Valid()
    {
      c := new CircuitComponent(name, representation, wires);
      c.parameterSet := parameterSet;
      c.attributes := attributes;
      c.fockShape := fockShape;
      c.view := view;
      c.inner := inner;
      c.innerWires := innerWires;
    }

    /** `on(modes)`: a light copy whose `_wires` are the remapped wires; this component keeps its
      * wires. A view's `wires` property does not read `_wires`, so a remapped view still shows
      * the wires of the component it views. */
    method On(modes: seq<int>) returns (r: Result<CircuitComponent<R>>)
      ensures r.Err? <==> OnWires(Wires(), modes).Err?
      ensures r.Err? ==> r.error == ValueError
      ensures r.Ok? ==>
        (fresh(r.value)
         && r.value.wires == OnWires(Wires(), modes).value
         && r.value.name == name && r.value.representation == representation
         && r.value.parameterSet == parameterSet && r.value.view == view
         && r.value.innerWires == innerWires)
      ensures r.Ok? && view.NotAView? ==> r.value.Wires() == OnWires(Wires(), modes).value
      ensures r.Ok? && Valid() ==> r.value.inner == inner
    {
      var w := OnWires(Wires(), modes);
      if w.Err? {
        return Err(ValueError);
      }
      var c := LightCopy();
      c.wires := w.value;
      r := Ok(c);
    }

    /** `_add_parameter(parameter)`: the length check, then the parameter joins the shared
      * parameter set, which every component holding that set sees, and becomes an attribute of
      * this object under its name. */
    method AddParameter(p: Parameter) returns (o: Outcome)
      modifies this, parameterSet
      ensures o == ParameterCheck(p.value, |old(Modes())|)
      ensures parameterSet == old(parameterSet)
      ensures o.Pass? ==> parameterSet.parameters == old(parameterSet.parameters) + [p] && attributes == old(attributes)[p.name := p]
      ensures o.Fail? ==> parameterSet.parameters == old(parameterSet.parameters) && attributes == old(attributes)
      ensures name == old(name) && representation == old(representation) && wires == old(wires)
      ensures fockShape == old(fockShape) && view == old(view) && inner == old(inner) && innerWires == old(innerWires)
    {
      o := ParameterCheck(p.value, |Modes()|);
      if o.Pass? {
        parameterSet.AddParameter(p);
        attributes := attributes[p.name := p];
      }
    }

    /** The `fock_shape` attribute: `_fock_shape`, created on first read as one None per wire. A
      * view has no such attribute of its own and reads the one of the component it views. */
    method FockShape() returns (s: seq<Option<nat>>)
      requires Valid()
      modifies this, inner
      ensures view == old(view) && inner == old(inner) && innerWires == old(innerWires)
      ensures view.NotAView? && old(fockShape).Some? ==> s == old(fockShape).value && fockShape == old(fockShape)
      ensures view.NotAView? && old(fockShape).None? ==>
        (|s| == wires.Count() && (forall k | 0 <= k < |s| :: s[k] == None) && fockShape == Some(s))
      ensures inner != null && old(inner.fockShape).Some? ==> s == old(inner.fockShape).value
      ensures inner != null && old(inner.fockShape).None? ==>
        (|s| == innerWires.Count() && (forall k | 0 <= k < |s| :: s[k] == None) && inner.fockShape == Some(s))
      ensures !view.NotAView? ==> fockShape == old(fockShape)
      ensures name == old(name) && representation == old(representation) && wires == old(wires)
      ensures parameterSet == old(parameterSet) && attributes == old(attributes)
      ensures Valid()
    {
      if view.NotAView? {
        if fockShape.None? {
          fockShape := Some(seq(wires.Count(), _ => None));
        }
        s := fockShape.value;
      } else {
        if inner.fockShape.None? {
          inner.fockShape := Some(seq(inner.wires.Count(), _ => None));
        }
        s := inner.fockShape.value;
      }
    }

    /** `==`: representations and wires agree; names and parameters are ignored. */
    predicate Equals(other: CircuitComponent<R>)
      reads this, other
    {
      representation == other.representation && Wires() == other.Wires()
    }

    /** `+` and `-`: the wires must be equal (ValueError otherwise); the result has these wires,
      * the representations combined by `op`, and the common name, or "" when the names differ. */
    method Combine(other: CircuitComponent<R>, op: (R, R) -> R) returns (r: Result<CircuitComponent<R>>)
      ensures r.Err? <==> Wires() != other.Wires()
      ensures r.Err? ==> r.error == ValueError
      ensures r.Ok? ==>
        (fresh(r.value) && r.value.view.NotAView?
         && r.value.Wires() == Wires() && r.value.representation == op(representation, other.representation)
         && r.value.name == (if name == other.name then name else ""))
    {
      if Wires() != other.Wires() {
        return Err(ValueError);
      }
      var c := new CircuitComponent(if name == other.name then name else "", op(representation, other.representation), Wires());
      r := Ok(c);
    }

    method Add(other: CircuitComponent<R>, plus: (R, R) -> R) returns (r: Result<CircuitComponent<R>>)
      ensures r.Err? <==> Wires() != other.Wires()
      ensures r.Ok? ==>
        (fresh(r.value) && r.value.Wires() == Wires()
         && r.value.representation == plus(representation, other.representation)
         && r.value.name == (if name == other.name then name else ""))
    {
      r := Combine(other, plus);
    }

    method Sub(other: CircuitComponent<R>, minus: (R, R) -> R) returns (r: Result<CircuitComponent<R>>)
      ensures r.Err? <==> Wires() != other.Wires()
      ensures r.Ok? ==>
        (fresh(r.value) && r.value.Wires() == Wires()
         && r.value.representation == minus(representation, other.representation)
         && r.value.name == (if name == other.name then name else ""))
    {
      r := Combine(other, minus);
    }

    /** A view of this component: its attributes, a light copy of this component, and `kind`. */
    method NewView(kind: ViewKind) returns (v: CircuitComponent<R>)
      requires Valid() && view.NotAView? && !kind.NotAView?
      ensures fresh(v) && v.view == kind && v.Valid()
      ensures v.inner != null && fresh(v.inner) && v.innerWires == wires
      ensures v.name == name && v.representation == representation && v.parameterSet == parameterSet
      ensures v.inner.name == name && v.inner.representation == representation && v.inner.parameterSet == parameterSet
    {
      v := LightCopy();
      var copy := LightCopy();
      v.view := kind;
      v.inner := copy;
      v.innerWires := copy.wires;
    }

    /** `.adjoint`: the adjoint view of a component, or, on an adjoint view, a light copy of the
      * component it views. */
    method Adjoint() returns (c: CircuitComponent<R>)
      requires Valid() && !view.DualKind?
      ensures fresh(c) && c.Valid()
      ensures view.NotAView? ==> c.view.AdjointKind? && c.Wires() == Wires().Adjoint() && c.name == name
      ensures view.AdjointKind? ==> c.view.NotAView? && c.Wires() == Wires().Adjoint()
      ensures view.AdjointKind? ==> c.name == inner.name && c.representation == inner.representation
      ensures view.NotAView? ==> c.inner.name == name && c.inner.representation == representation
    {
      if view.AdjointKind? {
        c := inner.LightCopy();
      } else {
        c := NewView(AdjointKind);
      }
    }

    /** `.dual`: the dual view of a component, or, on a dual view, a light copy of the component it
      * views. */
    method Dual() returns (c: CircuitComponent<R>)
      requires Valid() && !view.AdjointKind?
      ensures fresh(c) && c.Valid()
      ensures view.NotAView? ==> c.view.DualKind? && c.Wires() == Wires().Dual() && c.name == name
      ensures view.DualKind? ==> c.view.NotAView? && c.Wires() == Wires().Dual()
      ensures view.DualKind? ==> c.name == inner.name && c.representation == inner.representation
      ensures view.NotAView? ==> c.inner.name == name && c.inner.representation == representation
    {
      if view.DualKind? {
        c := inner.LightCopy();
      } else {
        c := NewView(DualKind);
      }
    }
  }

  /** A parameter added to a light copy reaches the original, which shares its parameter set, but
    * the attribute is set on the copy only. */
  method AddParameterToLightCopy<R(==)>(c: CircuitComponent<R>, p: Parameter) returns (copy: CircuitComponent<R>, o: Outcome)
    modifies c.parameterSet
    ensures o == ParameterCheck(p.value, |c.Modes()|)
    ensures copy.parameterSet == c.parameterSet
    ensures o.Pass? ==> c.parameterSet.parameters == old(c.parameterSet.parameters) + [p]
    ensures o.Pass? ==> copy.attributes == c.attributes[p.name := p]
    ensures c.attributes == old(c.attributes)
  {
    copy := c.LightCopy();
    o := copy.AddParameter(p);
  }

  /** Taking the adjoint twice gives a plain component with the original wires, representation and
    * name; likewise for the dual. */
  method AdjointTwice<R(==)>(c: CircuitComponent<R>) returns (a: CircuitComponent<R>, d: CircuitComponent<R>)
    requires c.Valid() && c.view.NotAView?
    ensures a.view.NotAView? && a.Wires() == c.Wires() && a.name == c.name && a.representation == c.representation
    ensures d.view.NotAView? && d.Wires() == c.Wires() && d.name == c.name && d.representation == c.representation
  {
    var v := c.Adjoint();
    a := v.Adjoint();
    WiresInvolutions(c.Wires());
    var u := c.Dual();
    d := u.Dual();
  }
}
