/** `to_fock` (mrmustard/physics/converters.py): the shape resolution and validation in front of the
  * Bargmann-to-Fock conversion. The conversion of one (A, b, c) triple, `hermite_renormalized`, is
  * not part of this model and is a parameter; `settings.AUTOCUTOFF_MAX_CUTOFF` is a parameter too. */
module Converters {
  import opened LinAlg

  /** The `shape` argument: None, an int, or a sequence of cutoffs. */
  datatype ShapeArg = NoShape | IntShape(n: int) | TupleShape(cutoffs: seq<int>)

  /** A representation: a batch of Bargmann triples over `numVars` variables, or a batched Fock
    * array, which remembers the Bargmann data it was converted from. */
  datatype Representation<T> =
    | Bargmann(A: seq<Matrix>, b: seq<Vector>, c: seq<real>, numVars: nat)
    | Fock(arrays: seq<T>, original: BargmannData)

  datatype BargmannData = NoData | Data(A: seq<Matrix>, b: seq<Vector>, c: seq<real>)

  /** The outcome of `to_fock`: a representation, or the ValueError raised on a shape of the wrong
    * length, whose message says whether the shape is "less" or "more" than the number of
    * variables. */
  datatype Converted<T> = Converted(rep: Representation<T>) | LengthError(word: string)

  /** Python's `not shape`: None, 0 and the empty sequence are falsy. */
  predicate Falsy(shape: ShapeArg)
  {
    shape.NoShape? || shape == IntShape(0) || shape == TupleShape([])
  }

  /** The cutoffs `to_fock` asks for: a falsy shape becomes the maximal autocutoff on every
    * variable, an int is broadcast to every variable, and a sequence is taken as it is. */
  function ResolveShape(shape: ShapeArg, numVars: nat, maxCutoff: int): (r: seq<int>)
    ensures Falsy(shape) ==> |r| == numVars && forall k | 0 <= k < numVars :: r[k] == maxCutoff
    ensures shape.IntShape? && shape.n != 0 ==> |r| == numVars && forall k | 0 <= k < numVars :: r[k] == shape.n
    ensures shape.TupleShape? && shape.cutoffs != [] ==> r == shape.cutoffs
  {
    match shape
    case NoShape => seq(numVars, _ => maxCutoff)
    case IntShape(n) => seq(numVars, _ => if n == 0 then maxCutoff else n)
    case TupleShape(s) => if s == [] then seq(numVars, _ => maxCutoff) else s
  }

  /** The word of the length-mismatch message. */
  function MismatchWord(shapeLength: nat, numVars: nat): (r: string)
    ensures r == "less" <==> shapeLength < numVars
    ensures r == "more" <==> shapeLength >= numVars
  {
    if shapeLength < numVars then "less" else "more"
  }

  /** `zip(rep.A, rep.b, rep.c)` has as many entries as the shortest of the three. */
  function ZipLength(A: seq<Matrix>, b: seq<Vector>, c: seq<real>): (r: nat)
    ensures r <= |A| && r <= |b| && r <= |c|
    ensures r == |A| || r == |b| || r == |c|
  {
    if |A| <= |b| && |A| <= |c| then |A| else if |b| <= |c| then |b| else |c|
  }

  /** `to_fock(rep, shape)`. */
  function ToFock<T>(rep: Representation<T>, shape: ShapeArg, maxCutoff: int,
                     hermite: (Matrix, Vector, real, seq<int>) -> T): (r: Converted<T>)
    ensures rep.Fock? ==> r == Converted(rep)
    ensures rep.Bargmann? && r.LengthError? ==>
      |ResolveShape(shape, rep.numVars, maxCutoff)| != rep.numVars
    ensures rep.Bargmann? && r.Converted? ==>
      |ResolveShape(shape, rep.numVars, maxCutoff)| == rep.numVars && r.rep.Fock?
  {
    match rep
    case Fock(_, _) => Converted(rep)
    case Bargmann(A, b, c, numVars) =>
      var s := ResolveShape(shape, numVars, maxCutoff);
      if numVars != |s| then LengthError(MismatchWord(|s|, numVars))
      else
        var n := ZipLength(A, b, c);
        Converted(Fock(seq(n, k requires 0 <= k < n => hermite(A[k], b[k], c[k], s)), Data(A, b, c)))
  }

  /** A Bargmann representation converts exactly when the resolved shape has one cutoff per
    * variable; the Fock result holds one array per batch entry of the Bargmann data, in batch
    * order, each computed with that shape, and remembers the Bargmann data. Otherwise the error
    * says "less" exactly when the shape is too short. */
  lemma ToFockBargmann<T>(rep: Representation<T>, shape: ShapeArg, maxCutoff: int,
                          hermite: (Matrix, Vector, real, seq<int>) -> T)
    requires rep.Bargmann?
    ensures var s := ResolveShape(shape, rep.numVars, maxCutoff);
      var r := ToFock(rep, shape, maxCutoff, hermite);
      (r.Converted? <==> |s| == rep.numVars)
      && (r.LengthError? ==> (r.word == "less" <==> |s| < rep.numVars))
      && (r.Converted? ==>
            var n := ZipLength(rep.A, rep.b, rep.c);
            r.rep.original == Data(rep.A, rep.b, rep.c) && |r.rep.arrays| == n
            && forall k | 0 <= k < n :: r.rep.arrays[k] == hermite(rep.A[k], rep.b[k], rep.c[k], s))
  {
  }

  /** A missing, zero or int shape never fails: it always resolves to one cutoff per variable. */
  lemma ToFockBroadcastConverts<T>(rep: Representation<T>, shape: ShapeArg, maxCutoff: int,
                                   hermite: (Matrix, Vector, real, seq<int>) -> T)
    requires rep.Bargmann? && !shape.TupleShape?
    ensures ToFock(rep, shape, maxCutoff, hermite).Converted?
  {
  }

  /** Converting a second time changes nothing: the result of a conversion is a Fock
    * representation, which `to_fock` returns unchanged. */
  lemma ToFockIdempotent<T>(rep: Representation<T>, shape: ShapeArg, shape2: ShapeArg, maxCutoff: int,
                            hermite: (Matrix, Vector, real, seq<int>) -> T)
    requires ToFock(rep, shape, maxCutoff, hermite).Converted?
    ensures var once := ToFock(rep, shape, maxCutoff, hermite).rep;
      ToFock(once, shape2, maxCutoff, hermite) == Converted(once)
  {
  }
}
