/** `Transformation`, `Operation`, `Unitary`, `Map` and `Channel`
  * (mrmustard/lab_dev/transformations/base.py): the checks and wire layouts of transformations, and
  * the kind of component `>>` returns. The Bargmann triples themselves (`wigner_to_bargmann_U`,
  * `inv`) are not part of this model; a representation is passed in where one is needed. */
module TransformationsBase {
  import opened Wrappers
  import opened Seqs
  import opened CircuitComponents

  /** The class of a component, as far as `>>` and `_from_attributes` tell them apart. */
  datatype Kind = PlainComponent | OperationKind | UnitaryKind | MapKind | ChannelKind

  /** `name or cls.__name__`: a missing or empty name becomes the class name. */
  function NameOrClass(name: Option<string>, className: string): (r: string)
    ensures name.Some? && name.value != "" ==> r == name.value
    ensures name.None? || name == Some("") ==> r == className
  {
    if name.None? || name.value == "" then className else name.value
  }

  // ---------------------------------------------------------------------------------------------
  // Wire layouts
  // ---------------------------------------------------------------------------------------------

  /** `Operation(modes_out, modes_in)`: as written, `modes_in` go on the output kets and
    * `modes_out` on the input kets; there are no bra wires. */
  function OperationWires(modesOut: seq<int>, modesIn: seq<int>): (r: Wires)
    ensures r.Valid() && r.outBra == [] && r.inBra == []
    ensures forall m :: (m in r.outKet <==> m in modesIn) && (m in r.inKet <==> m in modesOut)
  {
    MakeWires([], [], modesIn, modesOut)
  }

  /** `Map(modes_out, modes_in)` and `Channel`: the out modes on both output groups, the in modes on
    * both input groups. */
  function MapWires(modesOut: seq<int>, modesIn: seq<int>): (r: Wires)
    ensures r.Valid()
    ensures forall m :: (m in r.outBra <==> m in modesOut) && (m in r.outKet <==> m in modesOut)
    ensures forall m :: (m in r.inBra <==> m in modesIn) && (m in r.inKet <==> m in modesIn)
  {
    MakeWires(modesOut, modesIn, modesOut, modesIn)
  }

  /** A map's bra side mirrors its ket side: its adjoint has the same wires. */
  lemma MapWiresSelfAdjoint(modesOut: seq<int>, modesIn: seq<int>)
    ensures MapWires(modesOut, modesIn).Adjoint() == MapWires(modesOut, modesIn)
    ensures MapWires(modesOut, modesIn).Dual() == MapWires(modesIn, modesOut)
  {
  }

  /** An operation only has ket wires and a map has both; so does `>>` treat them. */
  lemma TransformationSides(modesOut: seq<int>, modesIn: seq<int>)
    requires |modesOut| > 0 || |modesIn| > 0
    ensures OperationWires(modesOut, modesIn).HasKet() && !OperationWires(modesOut, modesIn).HasBra()
    ensures MapWires(modesOut, modesIn).HasKet() && MapWires(modesOut, modesIn).HasBra()
  {
    if |modesOut| > 0 {
      assert modesOut[0] in OperationWires(modesOut, modesIn).inKet;
      assert modesOut[0] in MapWires(modesOut, modesIn).outKet;
      assert modesOut[0] in MapWires(modesOut, modesIn).outBra;
    } else {
      assert modesIn[0] in OperationWires(modesOut, modesIn).outKet;
      assert modesIn[0] in MapWires(modesOut, modesIn).inKet;
      assert modesIn[0] in MapWires(modesOut, modesIn).inBra;
    }
  }

  /** `Operation(modes_out, modes_in, representation, name)`. */
  method NewOperation<R(==)>(modesOut: seq<int>, modesIn: seq<int>, representation: R, name: Option<string>)
    returns (c: CircuitComponent<R>)
    ensures fresh(c) && c.Valid() && c.view.NotAView?
    ensures c.wires == OperationWires(modesOut, modesIn) && c.representation == representation
    ensures c.name == NameOrClass(name, "Operation")
  {
    c := new CircuitComponent(NameOrClass(name, "Operation"), representation, OperationWires(modesOut, modesIn));
  }

  /** `Map(modes_out, modes_in, representation, name)`; a `Channel` is built the same way. */
  method NewMap<R(==)>(modesOut: seq<int>, modesIn: seq<int>, representation: R, name: Option<string>, className: string)
    returns (c: CircuitComponent<R>)
    ensures fresh(c) && c.Valid() && c.view.NotAView?
    ensures c.wires == MapWires(modesOut, modesIn) && c.representation == representation
    ensures c.name == NameOrClass(name, className)
  {
    c := new CircuitComponent(NameOrClass(name, className), representation, MapWires(modesOut, modesIn));
  }

  // ---------------------------------------------------------------------------------------------
  // Unitary.from_symplectic
  // ---------------------------------------------------------------------------------------------

  /** `symplectic.shape[-2:] == (2n, 2n)` for n = len(modes); a shape of fewer than two axes never
    * matches. */
  predicate SymplecticFits(shape: seq<nat>, nModes: nat)
  {
    |shape| >= 2 && shape[|shape| - 2] == 2 * nModes && shape[|shape| - 1] == 2 * nModes
  }

  /** The wires of `Unitary.from_symplectic(modes, symplectic, ...)`: ValueError unless the last
    * two axes of the symplectic matrix are 2 len(modes) long; then the modes go on the output kets
    * and the input kets, with no bra wires. */
  function FromSymplecticWires(modes: seq<int>, shape: seq<nat>): (r: Result<Wires>)
    ensures r.Ok? <==> SymplecticFits(shape, |modes|)
    ensures r.Err? ==> r.error == ValueError
    ensures r.Ok? ==>
      (r.value.Valid() && r.value.outBra == [] && r.value.inBra == []
       && forall m :: (m in r.value.outKet <==> m in modes) && (m in r.value.inKet <==> m in modes))
  {
    if !SymplecticFits(shape, |modes|) then Err(ValueError) else Ok(MakeWires([], [], modes, modes))
  }

  /** A unitary from a symplectic matrix is an operation from its modes to its modes, and its dual
    * has the same wires. */
  lemma FromSymplecticIsOperation(modes: seq<int>, shape: seq<nat>)
    requires SymplecticFits(shape, |modes|)
    ensures FromSymplecticWires(modes, shape) == Ok(OperationWires(modes, modes))
    ensures FromSymplecticWires(modes, shape).value.Dual() == FromSymplecticWires(modes, shape).value
  {
  }

  /** `Unitary.from_symplectic(modes, symplectic, displacement, name)`, with the triple computed
    * from the symplectic matrix passed in; `name` is stored as given, None as "". */
  method FromSymplectic<R(==)>(modes: seq<int>, shape: seq<nat>, representation: R, name: Option<string>)
    returns (r: Result<CircuitComponent<R>>)
    ensures r.Err? <==> !SymplecticFits(shape, |modes|)
    ensures r.Err? ==> r.error == ValueError
    ensures r.Ok? ==>
      (fresh(r.value) && r.value.Valid() && r.value.wires == FromSymplecticWires(modes, shape).value
       && r.value.representation == representation && r.value.name == name.GetOr(""))
  {
    var w := FromSymplecticWires(modes, shape);
    if w.Err? {
      return Err(ValueError);
    }
    var c := new CircuitComponent(name.GetOr(""), representation, w.value);
    r := Ok(c);
  }

  // ---------------------------------------------------------------------------------------------
  // Transformation.inverse
  // ---------------------------------------------------------------------------------------------

  /** The checks of `inverse`, in order, each raising NotImplementedError: as many input as output
    * wires, a Bargmann representation, a batch of at most one triple. */
  function InverseChecks(w: Wires, isBargmann: bool, batchSize: nat): (r: Outcome)
    ensures r == Pass <==> w.InputCount() == w.OutputCount() && isBargmann && batchSize <= 1
    ensures r.Fail? ==> r.error == NotImplementedError
  {
    if w.InputCount() != w.OutputCount() then Fail(NotImplementedError)
    else if !isBargmann then Fail(NotImplementedError)
    else if batchSize > 1 then Fail(NotImplementedError)
    else Pass
  }

  /** Every operation and every map passes the wire check, so only the representation decides. */
  lemma InverseChecksTransformations(modesOut: seq<int>, modesIn: seq<int>, isBargmann: bool, batchSize: nat)
    requires |SortedSet(modesOut)| == |SortedSet(modesIn)|
    ensures InverseChecks(OperationWires(modesOut, modesIn), isBargmann, batchSize).Pass? <==> isBargmann && batchSize <= 1
    ensures InverseChecks(MapWires(modesOut, modesIn), isBargmann, batchSize).Pass? <==> isBargmann && batchSize <= 1
  {
  }

  /** `inverse()` as written: once the checks pass, the call at lines 95-97 hands `_from_attributes`
    * two arguments where it takes three, which raises TypeError before any inverse is built. */
  function InverseAsWritten(w: Wires, isBargmann: bool, batchSize: nat): (r: Outcome)
    ensures r.Fail?
    ensures InverseChecks(w, isBargmann, batchSize).Fail? ==> r == InverseChecks(w, isBargmann, batchSize)
    ensures InverseChecks(w, isBargmann, batchSize).Pass? ==> r == Fail(TypeError)
  {
    match InverseChecks(w, isBargmann, batchSize)
    case Fail(e) => Fail(e)
    case Pass => Fail(TypeError)
  }

  // ---------------------------------------------------------------------------------------------
  // The kind of `>>`
  // ---------------------------------------------------------------------------------------------

  /** The kind `s >> o` evidently should have, as the `__rshift__` doc comments of `Unitary` and
    * `Channel` say: a unitary after a unitary is a unitary, a channel after a unitary is a
    * channel, a channel or a unitary after a channel is a channel, anything else is a plain
    * component; an unsupported pair raises ValueError, as in `CircuitComponent.__rshift__`. */
  function RShiftKind(sKind: Kind, s: Wires, oKind: Kind, o: Wires): (r: Result<Kind>)
    ensures RShiftPlan(s, o).Err? <==> r.Err?
    ensures r.Err? ==> r.error == ValueError
    ensures r.Ok? && sKind == UnitaryKind && oKind == UnitaryKind ==> r.value == UnitaryKind
    ensures r.Ok? && (sKind == UnitaryKind || sKind == ChannelKind) && oKind == ChannelKind ==> r.value == ChannelKind
    ensures r.Ok? && sKind == ChannelKind && oKind == UnitaryKind ==> r.value == ChannelKind
    ensures r.Ok? && r.value != PlainComponent ==>
      (sKind == UnitaryKind || sKind == ChannelKind) && (oKind == UnitaryKind || oKind == ChannelKind)
  {
    if RShiftPlan(s, o).Err? then Err(ValueError)
    else if sKind == UnitaryKind && oKind == UnitaryKind then Ok(UnitaryKind)
    else if (sKind == UnitaryKind || sKind == ChannelKind) && (oKind == UnitaryKind || oKind == ChannelKind) then Ok(ChannelKind)
    else Ok(PlainComponent)
  }

  /** The kind of `s >> o` as written: `Unitary.__rshift__` (line 152) and `Channel.__rshift__`
    * (line 229) pass `_from_attributes` two arguments where it takes three, so every composition
    * of unitaries and channels raises TypeError; the rest come from `@`, plain components. */
  function RShiftKindAsWritten(sKind: Kind, s: Wires, oKind: Kind, o: Wires): (r: Result<Kind>)
    ensures RShiftPlan(s, o).Err? ==> r == Err(ValueError)
  {
    if RShiftPlan(s, o).Err? then Err(ValueError)
    else if (sKind == UnitaryKind || sKind == ChannelKind) && (oKind == UnitaryKind || oKind == ChannelKind) then Err(TypeError)
    else Ok(PlainComponent)
  }

  /** The two readings differ exactly where the doc comments promise a unitary or a channel: there
    * the code raises TypeError; everywhere else they agree. */
  lemma RShiftKindAsWrittenDiffers(sKind: Kind, s: Wires, oKind: Kind, o: Wires)
    ensures var intended := RShiftKind(sKind, s, oKind, o);
      (RShiftKindAsWritten(sKind, s, oKind, o) == Err(TypeError) <==> intended.Ok? && intended.value != PlainComponent)
    ensures var intended := RShiftKind(sKind, s, oKind, o);
      (!(intended.Ok? && intended.value != PlainComponent) ==> RShiftKindAsWritten(sKind, s, oKind, o) == intended)
  {
  }

  /** Two unitaries on mode 0 compose without a wire error, and the code as written raises
    * TypeError where a unitary is intended. */
  lemma UnitaryAfterUnitary()
    ensures RShiftKind(UnitaryKind, OperationWires([0], [0]), UnitaryKind, OperationWires([0], [0])) == Ok(UnitaryKind)
    ensures RShiftKindAsWritten(UnitaryKind, OperationWires([0], [0]), UnitaryKind, OperationWires([0], [0])) == Err(TypeError)
  {
    var w := OperationWires([0], [0]);
    assert 0 in w.outKet;
    assert !w.HasBra() && w.HasKet();
  }

  /** Unitaries and channels are closed under `>>` in the intended reading: composing two of them
    * gives one of them again, a channel as soon as a channel is involved. */
  lemma RShiftKindClosed(sKind: Kind, s: Wires, oKind: Kind, o: Wires)
    requires sKind in {UnitaryKind, ChannelKind} && oKind in {UnitaryKind, ChannelKind}
    requires RShiftPlan(s, o).Ok?
    ensures RShiftKind(sKind, s, oKind, o).Ok?
    ensures RShiftKind(sKind, s, oKind, o).value == if sKind == ChannelKind || oKind == ChannelKind then ChannelKind else UnitaryKind
  {
  }
}
