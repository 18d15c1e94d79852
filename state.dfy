/** The legacy `State` (mrmustard/lab/abstract/state.py): how a state is classified when it is built,
  * its cached modes, the cutoff requests of `ket` and `dm`, the pad-then-slice re-cutoff of a Fock
  * state, `[]`, `&`, the cutoff assembly of `primal` and the guards of `>>`, `+` and `==`.
  * Everything numerical (Gaussian Fock amplitudes, purities, autocutoffs, `general_dyne`, the
  * contraction of states) is passed in or left out. */
module State {
  import opened Wrappers
  import opened Seqs
  import Dense
  import opened ArrayViews

  type Amplitudes = Dense.Tensor<Complex>

  const Zero := Complex(0.0, 0.0)

  // ---------------------------------------------------------------------------------------------
  // Classification in `__init__`
  // ---------------------------------------------------------------------------------------------

  /** The arguments of `State(...)`, as far as classification looks at them: the shapes of the
    * covariance and symplectic matrices, whether means and eigenvalues are given, and the Fock
    * arrays. */
  datatype StateArgs = StateArgs(covShape: Option<seq<nat>>, hasMeans: bool, hasEigenvalues: bool,
                                 symplecticShape: Option<seq<nat>>, ket: Option<Amplitudes>,
                                 dm: Option<Amplitudes>, modes: Option<seq<int>>)

  /** What `__init__` decides: Gaussian or not, the number of modes, and the purity it knows. */
  datatype Classification = Classification(isGaussian: bool, numModes: nat, purity: Option<real>)

  /** `shape[-1] // 2`; a 0-d array has no last axis. */
  function HalfLastAxis(shape: seq<nat>): (r: Result<nat>)
    ensures r.Ok? <==> |shape| > 0
    ensures r.Ok? ==> 2 * r.value <= shape[|shape| - 1] < 2 * r.value + 2
    ensures r.Err? ==> r.error == IndexError
  {
    if |shape| == 0 then Err(IndexError) else Ok(shape[|shape| - 1] / 2)
  }

  predicate HasMoments(a: StateArgs) { a.covShape.Some? && a.hasMeans }
  predicate HasSymplectic(a: StateArgs) { a.hasEigenvalues && a.symplecticShape.Some? }

  /** Covariance and means first, then eigenvalues and symplectic matrix, both Gaussian with half
    * the last dimension as modes; then a ket (one mode per axis, purity 1) or a dm (one mode per
    * two axes); anything else is a ValueError. */
  function Classify(a: StateArgs): (r: Result<Classification>)
    ensures r.Err? && r.error == ValueError <==>
      !HasMoments(a) && !HasSymplectic(a) && a.ket.None? && a.dm.None?
    ensures r.Ok? ==> (r.value.isGaussian <==> HasMoments(a) || HasSymplectic(a))
    ensures HasMoments(a) ==> r == (match HalfLastAxis(a.covShape.value)
                                    case Ok(n) => Ok(Classification(true, n, None))
                                    case Err(e) => Err(e))
    ensures !HasMoments(a) && HasSymplectic(a) ==> r == (match HalfLastAxis(a.symplecticShape.value)
                                    case Ok(n) => Ok(Classification(true, n, None))
                                    case Err(e) => Err(e))
    ensures r.Ok? && !r.value.isGaussian ==>
      (a.ket.Some? ==> r.value.numModes == |a.ket.value.shape| && r.value.purity == Some(1.0))
      && (a.ket.None? ==> 2 * r.value.numModes <= |a.dm.value.shape| && r.value.purity.None?)
  {
    if HasMoments(a) then
      match HalfLastAxis(a.covShape.value)
      case Ok(n) => Ok(Classification(true, n, None))
      case Err(e) => Err(e)
    else if HasSymplectic(a) then
      match HalfLastAxis(a.symplecticShape.value)
      case Ok(n) => Ok(Classification(true, n, None))
      case Err(e) => Err(e)
    else if a.ket.Some? then Ok(Classification(false, |a.ket.value.shape|, Some(1.0)))
    else if a.dm.Some? then Ok(Classification(false, |a.dm.value.shape| / 2, None))
    else Err(ValueError)
  }

  // ---------------------------------------------------------------------------------------------
  // Cutoff requests and the re-cutoff of a Fock state
  // ---------------------------------------------------------------------------------------------

  /** A cutoff request of `ket`/`dm`: None asks for the state's own cutoffs; in a list, a None
    * entry takes the state's own cutoff at that position, which is an IndexError past its end. */
  function ResolveCutoffs(request: Option<seq<Option<nat>>>, own: seq<nat>): (r: Result<seq<nat>>)
    ensures request.None? ==> r == Ok(own)
    ensures request.Some? ==>
      (r.Ok? <==> forall i | 0 <= i < |request.value| :: request.value[i].None? ==> i < |own|)
    ensures request.Some? && r.Ok? ==>
      |r.value| == |request.value|
      && forall i | 0 <= i < |request.value| :: r.value[i] == request.value[i].GetOr(if i < |own| then own[i] else 0)
    ensures r.Err? ==> r.error == IndexError
  {
    match request
    case None => Ok(own)
    case Some(s) =>
      if exists i | 0 <= i < |s| :: s[i].None? && i >= |own| then Err(IndexError)
      else Ok(seq(|s|, i requires 0 <= i < |s| => s[i].GetOr(if i < |own| then own[i] else 0)))
  }

  /** A fully specified list is taken as it is. */
  lemma ResolveCutoffsComplete(request: seq<nat>, own: seq<nat>)
    ensures ResolveCutoffs(Some(seq(|request|, i requires 0 <= i < |request| => Some(request[i]))), own) == Ok(request)
  {
    var r := ResolveCutoffs(Some(seq(|request|, i requires 0 <= i < |request| => Some(request[i]))), own);
    assert r.value == request;
  }

  /** `[(0, max(0, new - old)) for new, old in zip(cutoffs, current)]`, as the padding after each
    * axis. */
  function Pads(wanted: seq<nat>, current: seq<nat>): (r: seq<nat>)
    ensures |r| == if |wanted| <= |current| then |wanted| else |current|
    ensures forall k | 0 <= k < |r| :: r[k] == if wanted[k] > current[k] then wanted[k] - current[k] else 0
  {
    var n := if |wanted| <= |current| then |wanted| else |current|;
    seq(n, k requires 0 <= k < n => if wanted[k] > current[k] then wanted[k] - current[k] else 0)
  }

  predicate NeedsPad(pads: seq<nat>)
  {
    exists k | 0 <= k < |pads| :: pads[k] != 0
  }

  /** The shape `t[:c0, ..., :ck]` takes: Python's slices stop at the end of an axis, and the axes
    * past the last cutoff are kept whole. */
  function SliceShape(cut: seq<nat>, shape: seq<nat>): (r: seq<nat>)
    requires |cut| <= |shape|
    ensures Dense.ShapeAtMost(r, shape)
    ensures forall k | 0 <= k < |cut| :: r[k] == if cut[k] <= shape[k] then cut[k] else shape[k]
    ensures forall k | |cut| <= k < |shape| :: r[k] == shape[k]
  {
    seq(|shape|, k requires 0 <= k < |shape| => if k < |cut| && cut[k] <= shape[k] then cut[k] else shape[k])
  }

  /** Zero-pads `t` (only when some padding is non-zero), then slices it to `cut`. The backend
    * refuses a padding list shorter than the rank (ValueError); more cutoffs than axes is an
    * IndexError. */
  function PadThenSlice(t: Amplitudes, pads: seq<nat>, cut: seq<nat>): (r: Result<Amplitudes>)
    requires t.Valid()
    ensures r.Ok? ==> r.value.Valid()
    ensures r.Err? ==> r.error == ValueError || r.error == IndexError
  {
    if NeedsPad(pads) && |pads| != |t.shape| then Err(ValueError)
    else
      var padded := if NeedsPad(pads) then Dense.Pad(t, pads, Zero) else t;
      if |cut| > |padded.shape| then Err(IndexError)
      else Ok(Dense.Slice(padded, SliceShape(cut, padded.shape)))
  }

  /** When there is one cutoff and one padding per axis and each padding makes up exactly the
    * shortfall of its axis, the result has the cutoffs as its shape, keeps the entries inside both
    * shapes and is zero elsewhere. */
  lemma PadThenSliceEntries(t: Amplitudes, pads: seq<nat>, cut: seq<nat>)
    requires t.Valid() && |pads| == |t.shape| && |cut| == |t.shape|
    requires forall k | 0 <= k < |cut| :: pads[k] == if cut[k] > t.shape[k] then cut[k] - t.shape[k] else 0
    ensures var r := PadThenSlice(t, pads, cut);
      r.Ok? && r.value.shape == cut
      && forall idx | Dense.InShape(idx, cut) ::
           Dense.At(r.value, idx) == if Dense.InShape(idx, t.shape) then Dense.At(t, idx) else Zero
  {
    var padded := if NeedsPad(pads) then Dense.Pad(t, pads, Zero) else t;
    assert forall k | 0 <= k < |cut| :: cut[k] <= padded.shape[k];
    assert SliceShape(cut, padded.shape) == cut;
    if !NeedsPad(pads) {
      assert forall idx | Dense.InShape(idx, cut) :: Dense.InShape(idx, t.shape);
    }
  }

  /** `State.ket(cutoffs)` on a Fock state, from line 225 on: unchanged when the cutoffs are the
    * current ones, else padded and sliced. */
  function KetRecutoff(t: Amplitudes, numModes: nat, cutoffs: seq<nat>): (r: Result<Amplitudes>)
    requires t.Valid()
    ensures r.Ok? ==> r.value.Valid()
  {
    var current := t.shape[..if numModes <= |t.shape| then numModes else |t.shape|];
    if cutoffs == current then Ok(t) else PadThenSlice(t, Pads(cutoffs, current), cutoffs)
  }

  /** The re-cutoff of a ket with one cutoff per mode has exactly the cutoffs as its shape; entries
    * inside both the old and the new shape are kept and the rest are zero. */
  lemma KetRecutoffEntries(t: Amplitudes, cutoffs: seq<nat>)
    requires t.Valid() && |cutoffs| == |t.shape|
    ensures var r := KetRecutoff(t, |t.shape|, cutoffs);
      r.Ok? && r.value.shape == cutoffs
      && forall idx | Dense.InShape(idx, cutoffs) ::
           Dense.At(r.value, idx) == if Dense.InShape(idx, t.shape) then Dense.At(t, idx) else Zero
  {
    assert t.shape[..|t.shape|] == t.shape;
    if cutoffs != t.shape {
      PadThenSliceEntries(t, Pads(cutoffs, t.shape), cutoffs);
    }
  }

  /** Enlarging the cutoffs and cutting back to the old ones gives the ket back: padding loses
    * nothing. */
  lemma KetRecutoffRestores(t: Amplitudes, cutoffs: seq<nat>)
    requires t.Valid() && |cutoffs| == |t.shape|
    requires forall k | 0 <= k < |cutoffs| :: t.shape[k] <= cutoffs[k]
    ensures KetRecutoff(t, |t.shape|, cutoffs).Ok?
    ensures KetRecutoff(KetRecutoff(t, |t.shape|, cutoffs).value, |t.shape|, t.shape) == Ok(t)
  {
    KetRecutoffEntries(t, cutoffs);
    var u := KetRecutoff(t, |t.shape|, cutoffs).value;
    KetRecutoffEntries(u, t.shape);
    var v := KetRecutoff(u, |u.shape|, t.shape).value;
    forall idx | Dense.InShape(idx, t.shape)
      ensures Dense.At(v, idx) == Dense.At(t, idx)
    {
      assert Dense.InShape(idx, u.shape);
    }
    Dense.Extensional(v, t);
  }

  /** `State.dm(cutoffs)` on a Fock dm (lines 258-264): the current cutoffs are the first
    * `num_modes` axes, and the same padding and the same cutoffs are applied to both halves. */
  function DmRecutoff(t: Amplitudes, numModes: nat, cutoffs: seq<nat>): (r: Result<Amplitudes>)
    requires t.Valid()
    ensures r.Ok? ==> r.value.Valid()
  {
    var current := t.shape[..if numModes <= |t.shape| then numModes else |t.shape|];
    if cutoffs == current then Ok(t)
    else
      var p := Pads(cutoffs, current);
      PadThenSlice(t, p + p, cutoffs + cutoffs)
  }

  /** The re-cutoff of a square dm with one cutoff per mode has the cutoffs on both halves as its
    * shape; entries inside both shapes are kept and the rest are zero. */
  lemma DmRecutoffEntries(t: Amplitudes, half: seq<nat>, cutoffs: seq<nat>)
    requires t.Valid() && t.shape == half + half && |cutoffs| == |half|
    ensures var r := DmRecutoff(t, |half|, cutoffs);
      r.Ok? && r.value.shape == cutoffs + cutoffs
      && forall idx | Dense.InShape(idx, cutoffs + cutoffs) ::
           Dense.At(r.value, idx) == if Dense.InShape(idx, t.shape) then Dense.At(t, idx) else Zero
  {
    var n := |half|;
    assert t.shape[..n] == half;
    if cutoffs != half {
      var p := Pads(cutoffs, half);
      var c := cutoffs + cutoffs;
      forall k | 0 <= k < |c|
        ensures (p + p)[k] == if c[k] > t.shape[k] then c[k] - t.shape[k] else 0
      {
        if k >= n {
          assert c[k] == cutoffs[k - n] && t.shape[k] == half[k - n] && (p + p)[k] == p[k - n];
        }
      }
      PadThenSliceEntries(t, p + p, c);
    }
  }

  // ---------------------------------------------------------------------------------------------
  // The state object
  // ---------------------------------------------------------------------------------------------

  /** The item of `state[item]`: an int, an iterable of ints, or anything else. */
  datatype Item = IntItem(i: int) | IterableItem(s: seq<int>) | OtherItem

  /** `[item]` for an int, `list(item)` for an iterable. */
  function ItemModes(item: Item): (r: seq<int>)
    requires !item.OtherItem?
    ensures item.IntItem? ==> r == [item.i]
    ensures item.IterableItem? ==> r == item.s
  {
    if item.IntItem? then [item.i] else item.s
  }

  class State {
    var isGaussian: bool
    var numModes: nat
    /** `_modes`: None until supplied, set by `[]` or read through `modes`. */
    var modesCache: Option<seq<int>>
    var purity: Option<real>
    var ket: Option<Amplitudes>
    var dm: Option<Amplitudes>
    /** `_cutoffs`, which this class never assigns. */
    var cutoffsCache: Option<seq<nat>>

    predicate Valid()
      reads this
    {
      (modesCache.Some? ==> |modesCache.value| == numModes)
      && (ket.Some? ==> ket.value.Valid()) && (dm.Some? ==> dm.value.Valid())
    }

    /** `__init__` once classification and the modes check have passed. */
    constructor(c: Classification, ketArg: Option<Amplitudes>, dmArg: Option<Amplitudes>, modes: Option<seq<int>>)
      requires modes.Some? ==> |modes.value| == c.numModes
      requires ketArg.Some? ==> ketArg.value.Valid()
      requires dmArg.Some? ==> dmArg.value.Valid()
      ensures Valid()
      ensures isGaussian == c.isGaussian && numModes == c.numModes && purity == c.purity
      ensures modesCache == modes && ket == ketArg && dm == dmArg && cutoffsCache.None?
    {
      isGaussian := c.isGaussian;
      numModes := c.numModes;
      purity := c.purity;
      modesCache := modes;
      ket := ketArg;
      dm := dmArg;
      cutoffsCache := None;
    }

    /** The `modes` property: the supplied or cached modes, else `range(num_modes)`, which is then
      * cached. */
    method Modes() returns (m: seq<int>)
      requires Valid()
      modifies this
      ensures m == old(modesCache).GetOr(Range(0, numModes)) && |m| == numModes
      ensures modesCache == Some(m) && Valid()
      ensures isGaussian == old(isGaussian) && numModes == old(numModes) && purity == old(purity)
      ensures ket == old(ket) && dm == old(dm) && cutoffsCache == old(cutoffsCache)
    {
      if modesCache.None? {
        modesCache := Some(Range(0, numModes));
      }
      m := modesCache.value;
    }

    /** The `cutoffs` property: the autocutoffs (passed in) of a state with no Fock array, else
      * `_cutoffs` when set, else the first `num_modes` axes of the ket or, failing that, the dm. */
    function Cutoffs(auto: seq<nat>): (r: seq<nat>)
      reads this
      ensures ket.None? && dm.None? ==> r == auto
      ensures (ket.Some? || dm.Some?) && cutoffsCache.None? ==>
        var shape := (if ket.Some? then ket.value else dm.value).shape;
        |r| <= numModes && |r| <= |shape| && r == shape[..|r|]
    {
      if ket.None? && dm.None? then auto
      else if cutoffsCache.Some? then cutoffsCache.value
      else
        var shape := (if ket.Some? then ket.value else dm.value).shape;
        shape[..if numModes <= |shape| then numModes else |shape|]
    }

    /** `ket(cutoffs)`: a Gaussian state computes its ket (here `gaussianKet`) with the resolved
      * cutoffs and keeps it in `_ket`; a Fock state without a ket gives None; a Fock ket is
      * re-cut to the resolved cutoffs. */
    method Ket(request: Option<seq<Option<nat>>>, auto: seq<nat>, gaussianKet: seq<nat> -> Amplitudes)
      returns (r: Result<Option<Amplitudes>>)
      requires Valid()
      requires forall c :: gaussianKet(c).Valid()
      modifies this
      ensures Valid()
      ensures isGaussian == old(isGaussian) && numModes == old(numModes) && purity == old(purity)
      ensures modesCache == old(modesCache) && dm == old(dm) && cutoffsCache == old(cutoffsCache)
      ensures var c := ResolveCutoffs(request, old(Cutoffs(auto)));
        (c.Err? ==> r == Err(c.error) && ket == old(ket))
        && (c.Ok? && isGaussian ==> ket == Some(gaussianKet(c.value)) && r == Ok(ket))
        && (c.Ok? && !isGaussian ==>
              (ket == old(ket)
               && r == (if ket.None? then Ok(None)
                        else match KetRecutoff(ket.value, numModes, c.value)
                             case Ok(t) => Ok(Some(t))
                             case Err(e) => Err(e))))
    {
      var c := ResolveCutoffs(request, Cutoffs(auto));
      if c.Err? {
        return Err(c.error);
      }
      if isGaussian {
        ket := Some(gaussianKet(c.value));
        return Ok(ket);
      }
      if ket.None? {
        return Ok(None);
      }
      var t := KetRecutoff(ket.value, numModes, c.value);
      if t.Err? {
        return Err(t.error);
      }
      r := Ok(Some(t.value));
    }

    /** `dm(cutoffs)`, with `is_pure` passed in: a pure state goes through `ket` and `ket_to_dm`,
      * so a pure Fock state gives `ket_to_dm` of its re-cut ket, or its `_dm` when it has no ket; a
      * mixed Gaussian state computes its dm (here `gaussianDm`) with the cutoffs on both halves
      * and keeps it; a mixed Fock state re-cuts its dm, which is an AttributeError when it has
      * none. */
    method Dm(request: Option<seq<Option<nat>>>, auto: seq<nat>, isPure: bool,
              gaussianKet: seq<nat> -> Amplitudes, gaussianDm: seq<nat> -> Amplitudes,
              ketToDm: Amplitudes -> Amplitudes)
      returns (r: Result<Option<Amplitudes>>)
      requires Valid()
      requires forall c :: gaussianKet(c).Valid()
      requires forall c :: gaussianDm(c).Valid()
      modifies this
      ensures Valid()
      ensures isGaussian == old(isGaussian) && numModes == old(numModes) && purity == old(purity)
      ensures modesCache == old(modesCache) && cutoffsCache == old(cutoffsCache)
      ensures var c := ResolveCutoffs(request, old(Cutoffs(auto)));
        (c.Err? ==> r == Err(c.error) && ket == old(ket) && dm == old(dm))
        && (c.Ok? && !isPure ==> ket == old(ket))
        && (c.Ok? && !isPure && isGaussian ==> dm == Some(gaussianDm(c.value + c.value)) && r == Ok(dm))
        && (c.Ok? && !isPure && !isGaussian ==>
              (dm == old(dm)
               && r == (if dm.None? then Err(AttributeError)
                        else match DmRecutoff(dm.value, numModes, c.value)
                             case Ok(t) => Ok(Some(t))
                             case Err(e) => Err(e))))
        && (c.Ok? && isPure ==>
              (dm == old(dm)
               && (isGaussian ==> ket == Some(gaussianKet(c.value)) && r == Ok(Some(ketToDm(ket.value))))
               && (!isGaussian ==>
                     ket == old(ket)
                     && r == (if ket.None? then Ok(dm)
                              else match KetRecutoff(ket.value, numModes, c.value)
                                   case Ok(t) => Ok(Some(ketToDm(t)))
                                   case Err(e) => Err(e)))))
    {
      var c := ResolveCutoffs(request, Cutoffs(auto));
      if c.Err? {
        return Err(c.error);
      }
      if isPure {
        ResolveCutoffsComplete(c.value, Cutoffs(auto));
        var k := Ket(Some(seq(|c.value|, i requires 0 <= i < |c.value| => Some(c.value[i]))), auto, gaussianKet);
        if k.Err? {
          return Err(k.error);
        }
        if k.value.Some? {
          return Ok(Some(ketToDm(k.value.value)));
        }
        return Ok(dm);
      }
      if isGaussian {
        dm := Some(gaussianDm(c.value + c.value));
        return Ok(dm);
      }
      if dm.None? {
        return Err(AttributeError);
      }
      var t := DmRecutoff(dm.value, numModes, c.value);
      if t.Err? {
        return Err(t.error);
      }
      r := Ok(Some(t.value));
    }

    /** `state[item]`: an int stands for one mode and anything not iterable is a TypeError; the
      * item must name one mode per mode (ValueError); it becomes the modes of this very state,
      * which is returned. */
    method GetItem(item: Item) returns (r: Result<State>)
      requires Valid()
      modifies this
      ensures Valid()
      ensures item.OtherItem? ==> r == Err(TypeError)
      ensures !item.OtherItem? ==>
        (r.Err? <==> |ItemModes(item)| != numModes)
        && (r.Err? ==> r.error == ValueError)
        && (r.Ok? ==> r.value == this && modesCache == Some(ItemModes(item)))
      ensures r.Err? ==> modesCache == old(modesCache)
      ensures isGaussian == old(isGaussian) && numModes == old(numModes) && purity == old(purity)
      ensures ket == old(ket) && dm == old(dm) && cutoffsCache == old(cutoffsCache)
    {
      if item.OtherItem? {
        return Err(TypeError);
      }
      var modes := ItemModes(item);
      if |modes| != numModes {
        return Err(ValueError);
      }
      modesCache := Some(modes);
      r := Ok(this);
    }

    /** `self & other`: only Gaussian states concatenate (NotImplementedError otherwise). The new
      * state is Gaussian on both sets of modes, the other's shifted past this state's; reading both
      * `modes` caches them. */
    method And(other: State) returns (r: Result<State>)
      requires Valid() && other.Valid()
      modifies this, other
      ensures r.Err? <==> !(old(isGaussian) && old(other.isGaussian))
      ensures r.Err? ==> r.error == NotImplementedError
      ensures r.Err? ==> modesCache == old(modesCache) && other.modesCache == old(other.modesCache)
      ensures r.Ok? ==>
        var mine := old(modesCache).GetOr(Range(0, old(numModes)));
        var theirs := old(other.modesCache).GetOr(Range(0, old(other.numModes)));
        fresh(r.value) && r.value.Valid() && r.value.isGaussian
        && r.value.numModes == old(numModes) + old(other.numModes)
        && (this != other ==> r.value.modesCache == Some(mine + Shift(theirs, |mine|)))
        && (this == other ==> r.value.modesCache == Some(mine + Shift(mine, |mine|)))
      ensures isGaussian == old(isGaussian) && numModes == old(numModes) && Valid()
      ensures other.isGaussian == old(other.isGaussian) && other.numModes == old(other.numModes) && other.Valid()
    {
      if !(isGaussian && other.isGaussian) {
        return Err(NotImplementedError);
      }
      var mine := Modes();
      var theirs := other.Modes();
      var n := numModes + other.numModes;
      var s := new State(Classification(true, n, None), None, None, Some(mine + Shift(theirs, |mine|)));
      r := Ok(s);
    }
  }

  /** `State(...)`: classification, then the modes check, an AssertionError when the supplied modes
    * are not one per mode. */
  method NewState(a: StateArgs) returns (r: Result<State>)
    requires a.ket.Some? ==> a.ket.value.Valid()
    requires a.dm.Some? ==> a.dm.value.Valid()
    ensures r.Err? <==> Classify(a).Err? || (a.modes.Some? && |a.modes.value| != Classify(a).value.numModes)
    ensures r.Err? ==> r.error == if Classify(a).Err? then Classify(a).error else AssertionError
    ensures r.Ok? ==>
      var c := Classify(a).value;
      fresh(r.value) && r.value.Valid() && r.value.isGaussian == c.isGaussian
      && r.value.numModes == c.numModes && r.value.purity == c.purity
      && r.value.modesCache == a.modes && r.value.ket == a.ket && r.value.dm == a.dm
  {
    var c := Classify(a);
    if c.Err? {
      return Err(c.error);
    }
    if a.modes.Some? && |a.modes.value| != c.value.numModes {
      return Err(AssertionError);
    }
    var s := new State(c.value, a.ket, a.dm, a.modes);
    r := Ok(s);
  }

  // ---------------------------------------------------------------------------------------------
  // `primal` between two states: the cutoffs and the remaining modes
  // ---------------------------------------------------------------------------------------------

  /** How many of the modes 0, ..., m-1 are among `modes`: the value of the `used` counter when
    * the loop of `primal` reaches mode m. */
  function CountBelow(m: nat, modes: seq<int>): (r: nat)
    ensures r <= m
  {
    if m == 0 then 0 else CountBelow(m - 1, modes) + (if m - 1 in modes then 1 else 0)
  }

  /** A mode of the other state that is one of this state's takes this state's next unused
    * cutoff; any other mode keeps the other state's own cutoff. Reading past either list is an
    * IndexError. */
  predicate PrimalEntryOk(m: nat, selfModes: seq<int>, selfCutoffs: seq<nat>, otherCutoffs: seq<nat>)
  {
    if m in selfModes then CountBelow(m, selfModes) < |selfCutoffs| else m < |otherCutoffs|
  }

  function PrimalEntry(m: nat, selfModes: seq<int>, selfCutoffs: seq<nat>, otherCutoffs: seq<nat>): nat
    requires PrimalEntryOk(m, selfModes, selfCutoffs, otherCutoffs)
  {
    if m in selfModes then selfCutoffs[CountBelow(m, selfModes)] else otherCutoffs[m]
  }

  /** The loop of `primal` that builds `other_cutoffs`, with its `used` counter. */
  method PrimalCutoffs(selfModes: seq<int>, selfCutoffs: seq<nat>, otherNumModes: nat, otherCutoffs: seq<nat>)
    returns (r: Result<seq<nat>>)
    ensures r.Ok? <==> forall m: nat | m < otherNumModes :: PrimalEntryOk(m, selfModes, selfCutoffs, otherCutoffs)
    ensures r.Err? ==> r.error == IndexError
    ensures r.Ok? ==>
      |r.value| == otherNumModes
      && forall m: nat | m < otherNumModes :: r.value[m] == PrimalEntry(m, selfModes, selfCutoffs, otherCutoffs)
  {
    var out: seq<nat> := [];
    var used := 0;
    var m := 0;
    while m < otherNumModes
      invariant 0 <= m <= otherNumModes && |out| == m && used == CountBelow(m, selfModes)
      invariant forall j: nat | j < m :: PrimalEntryOk(j, selfModes, selfCutoffs, otherCutoffs)
      invariant forall j: nat | j < m :: out[j] == PrimalEntry(j, selfModes, selfCutoffs, otherCutoffs)
    {
      if m in selfModes {
        if used >= |selfCutoffs| {
          assert !PrimalEntryOk(m, selfModes, selfCutoffs, otherCutoffs);
          return Err(IndexError);
        }
        out := out + [selfCutoffs[used]];
        used := used + 1;
      } else {
        if m >= |otherCutoffs| {
          assert !PrimalEntryOk(m, selfModes, selfCutoffs, otherCutoffs);
          return Err(IndexError);
        }
        out := out + [otherCutoffs[m]];
      }
      m := m + 1;
    }
    r := Ok(out);
  }

  /** `[m for m in range(other.num_modes) if m not in self.modes]`, built mode by mode. */
  function RemainingModes(otherNumModes: nat, selfModes: seq<int>): (r: seq<int>)
    ensures forall m :: m in r <==> 0 <= m < otherNumModes && m !in selfModes
  {
    if otherNumModes == 0 then []
    else
      var m := otherNumModes - 1;
      RemainingModes(m, selfModes) + (if m in selfModes then [] else [m])
  }

  /** Each mode of the other state either uses up one of this state's cutoffs or remains: at the
    * end of the loop, `used` plus the number of remaining modes is the number of the other's
    * modes. */
  lemma {:induction false} PrimalModesPartition(n: nat, selfModes: seq<int>)
    ensures CountBelow(n, selfModes) + |RemainingModes(n, selfModes)| == n
  {
    if n > 0 {
      PrimalModesPartition(n - 1, selfModes);
    }
  }

  /** With the default modes 0, ..., k-1, the counter at mode m < k is m: the first k modes of the
    * other state take this state's cutoffs in order. */
  lemma {:induction false} CountBelowDefaultModes(m: nat, k: nat)
    requires m <= k
    ensures CountBelow(m, Range(0, k)) == m
  {
    if m > 0 {
      CountBelowDefaultModes(m - 1, k);
      assert Range(0, k)[m - 1] == m - 1;
    }
  }

  lemma PrimalDefaultModes(k: nat, selfCutoffs: seq<nat>, otherCutoffs: seq<nat>, m: nat)
    requires m < k <= |selfCutoffs|
    ensures PrimalEntryOk(m, Range(0, k), selfCutoffs, otherCutoffs)
    ensures PrimalEntry(m, Range(0, k), selfCutoffs, otherCutoffs) == selfCutoffs[m]
  {
    CountBelowDefaultModes(m, k);
    assert Range(0, k)[m] == m;
  }

  // ---------------------------------------------------------------------------------------------
  // Guards of `>>`, `+` and `==`
  // ---------------------------------------------------------------------------------------------

  /** The right operand of `>>`, `+` or `==`. */
  datatype Operand = StateOperand(numModes: nat) | TransformationOperand | OtherOperand

  /** `state >> other`: a state is a TypeError; a transformation is applied (its `primal`);
    * anything else has no `primal` (AttributeError). */
  function RShiftGuard(other: Operand): (r: Outcome)
    ensures r.Pass? <==> other.TransformationOperand?
    ensures other.StateOperand? ==> r == Fail(TypeError)
  {
    match other
    case StateOperand(_) => Fail(TypeError)
    case TransformationOperand => Pass
    case OtherOperand => Fail(AttributeError)
  }

  /** `state + other`: only a state can be mixed in, anything else is a TypeError. */
  function AddGuard(other: Operand): (r: Outcome)
    ensures r.Pass? <==> other.StateOperand?
    ensures r.Fail? ==> r.error == TypeError
  {
    if other.StateOperand? then Pass else Fail(TypeError)
  }

  /** What `==` reads of one state: its number of modes, its purity, whether it is Gaussian, its
    * means and covariance, and its ket and dm evaluated at the other state's cutoffs. V stands for
    * whatever arrays `np.allclose` compares. */
  datatype EqOperand<V> = EqOperand(numModes: nat, purity: real, isGaussian: bool,
                                    means: V, cov: V, ket: V, dm: V)

  /** `self == other`, with `np.allclose(.., atol=1e-6)` passed in as `close` and `is_pure`
    * (`np.isclose(purity, 1.0, atol=1e-6)`) as `pure`: different numbers of modes or different
    * purities are unequal; two Gaussian states compare means, then covariances; otherwise two pure
    * states compare kets and any other pair compares dms. */
  function Eq<V>(a: EqOperand<V>, b: EqOperand<V>, close: (V, V) -> bool, pure: real -> bool): (r: bool)
    ensures a.numModes != b.numModes || a.purity != b.purity ==> !r
    ensures a.numModes == b.numModes && a.purity == b.purity && a.isGaussian && b.isGaussian ==>
      (r <==> close(a.means, b.means) && close(a.cov, b.cov))
    ensures a.numModes == b.numModes && a.purity == b.purity && !(a.isGaussian && b.isGaussian) ==>
      r == if pure(a.purity) then close(a.ket, b.ket) else close(a.dm, b.dm)
  {
    if a.numModes != b.numModes then false
    else if a.purity != b.purity then false
    else if a.isGaussian && b.isGaussian then
      if !close(a.means, b.means) then false
      else if !close(a.cov, b.cov) then false
      else true
    else if pure(a.purity) && pure(b.purity) then close(a.ket, b.ket)
    else close(a.dm, b.dm)
  }

  /** With a reflexive `allclose` every state equals itself; and when `allclose` is symmetric, so
    * is `==` on states whose kets and dms are read at the same cutoffs. */
  lemma EqReflexiveSymmetric<V>(a: EqOperand<V>, b: EqOperand<V>, close: (V, V) -> bool, pure: real -> bool)
    requires forall v :: close(v, v)
    requires forall v, w :: close(v, w) == close(w, v)
    ensures Eq(a, a, close, pure)
    ensures Eq(a, b, close, pure) == Eq(b, a, close, pure)
  {
  }

  /** `>>` and `+` take complementary operands among states and transformations. */
  lemma GuardsComplementary(other: Operand)
    requires !other.OtherOperand?
    ensures RShiftGuard(other).Pass? != AddGuard(other).Pass?
  {
  }
}
