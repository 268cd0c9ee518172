/**
 * The column functions of databasegenerator.py that carry logic of their
 * own: the number of species, the ten class-fraction descriptors, the
 * descriptors that answer -1000 when an element attribute is missing, the
 * max-minus-min ranges, and the lattice guard in front of the symmetry
 * finder. pymatgen's element data and its symmetry finder are parameters;
 * amounts and attributes are exact reals.
 */
module Descriptors {
  import opened Wrappers
  import opened Rounding

  // ---------------------------------------------------------------------------
  // Structures and element data
  // ---------------------------------------------------------------------------

  /** The element predicates `is_transition_metal`, `is_rare_earth_metal`, ... of pymatgen's Element. */
  datatype ElementClass =
    | TransitionMetal | RareEarthMetal | NobleGas | Metalloid | Lanthanoid
    | Halogen | Chalcogen | Alkaline | Alkali | Actinoid

  /** The element attributes the descriptors read, as pymatgen answers them. */
  datatype ElementData<!E> = ElementData(
    inClass: (ElementClass, E) -> bool,
    commonOxidationStates: E -> seq<int>,
    electronegativity: E -> real,
    atomicRadius: E -> Option<real>,
    row: E -> int)

  /** A composition as the list `c.elements` with each element's amount. */
  type Composition<E> = seq<(E, real)>

  datatype Lattice = Lattice(a: real, b: real, c: real)

  /** What the descriptors read of a structure: its composition, the species of its sites in site order, and its lattice. */
  datatype Structure<E> = Structure(composition: Composition<E>, species: seq<E>, lattice: Lattice)

  predicate Positive<E>(c: Composition<E>) {
    forall i :: 0 <= i < |c| ==> c[i].1 > 0.0
  }

  predicate Distinct<E(==)>(c: Composition<E>) {
    forall i, j :: 0 <= i < j < |c| ==> c[i].0 != c[j].0
  }

  // ---------------------------------------------------------------------------
  // numberOfSpecies
  // ---------------------------------------------------------------------------

  /** `len(a.composition)`. */
  function NumberOfSpecies<E>(c: Composition<E>): nat {
    |c|
  }

  /** The elements occurring in a composition. */
  function ElementSet<E(==)>(c: Composition<E>): set<E> {
    set i | 0 <= i < |c| :: c[i].0
  }

  /** The number of species is the number of distinct elements. */
  lemma {:induction false} SpeciesAreElements<E>(c: Composition<E>)
    requires Distinct(c)
    ensures NumberOfSpecies(c) == |ElementSet(c)|
  {
    if |c| > 0 {
      var p := c[..|c| - 1];
      assert forall i :: 0 <= i < |p| ==> p[i] == c[i];
      assert Distinct(p);
      SpeciesAreElements(p);
      assert ElementSet(c) == ElementSet(p) + {c[|c| - 1].0} by {
        assert forall i :: 0 <= i < |c| - 1 ==> c[i].0 in ElementSet(p);
      }
      assert c[|c| - 1].0 !in ElementSet(p);
    }
  }

  // ---------------------------------------------------------------------------
  // Weighted sums over atomic fractions
  // ---------------------------------------------------------------------------

  /** `c.num_atoms`: the sum of the amounts. */
  function Total<E>(c: Composition<E>): (r: real)
    ensures Positive(c) ==> (r > 0.0 <==> |c| > 0)
    ensures Positive(c) ==> r >= 0.0
  {
    if |c| == 0 then 0.0
    else
      assert Positive(c) ==> Positive(c[..|c| - 1]) by {
        forall i | 0 <= i < |c| - 1 ensures c[..|c| - 1][i] == c[i] {}
      }
      Total(c[..|c| - 1]) + c[|c| - 1].1
  }

  /**
   * `sum(map(mul, weights, map(c.get_atomic_fraction, c.elements)))` with
   * `t` the total amount: each element's weight times its amount over `t`.
   */
  function Dot<E>(c: Composition<E>, w: E -> real, t: real): real
    requires t > 0.0
  {
    if |c| == 0 then 0.0
    else Dot(c[..|c| - 1], w, t) + w(c[|c| - 1].0) * (c[|c| - 1].1 / t)
  }

  /** The weighted sum of the atomic fractions; for no elements, `sum([])` is 0. */
  function Weighted<E>(c: Composition<E>, w: E -> real): real
    requires Positive(c)
  {
    if |c| == 0 then 0.0 else Dot(c, w, Total(c))
  }

  /** The amounts weighted by `w`, not yet divided by the total. */
  function Moment<E>(c: Composition<E>, w: E -> real): real {
    if |c| == 0 then 0.0
    else Moment(c[..|c| - 1], w) + c[|c| - 1].1 * w(c[|c| - 1].0)
  }

  lemma {:induction false} DotIsMoment<E>(c: Composition<E>, w: E -> real, t: real)
    requires t > 0.0
    ensures Dot(c, w, t) == Moment(c, w) / t
  {
    if |c| > 0 {
      var p, a, x := c[..|c| - 1], c[|c| - 1].1, w(c[|c| - 1].0);
      DotIsMoment(p, w, t);
      assert x * (a / t) == (a * x) / t;
      assert Moment(p, w) / t + (a * x) / t == (Moment(p, w) + a * x) / t;
    }
  }

  /** `a * x` grows with `x` when `a` is positive. */
  lemma MulMonotone(a: real, x: real, y: real)
    requires a > 0.0 && x <= y
    ensures a * x <= a * y
  {
    assert a * y - a * x == a * (y - x);
  }

  /** Inequalities add up. */
  lemma AddBoth(x: real, y: real, u: real, v: real)
    requires x <= y && u <= v
    ensures x + u <= y + v
  {
  }

  /** Weights between `lo` and `hi` give a moment between `lo` and `hi` times the total. */
  lemma {:induction false} MomentWithin<E>(c: Composition<E>, w: E -> real, lo: real, hi: real)
    requires Positive(c)
    requires forall i :: 0 <= i < |c| ==> lo <= w(c[i].0) <= hi
    ensures lo * Total(c) <= Moment(c, w) <= hi * Total(c)
  {
    if |c| > 0 {
      var p, a, x := c[..|c| - 1], c[|c| - 1].1, w(c[|c| - 1].0);
      assert forall i :: 0 <= i < |p| ==> p[i] == c[i];
      assert Positive(p);
      MomentWithin(p, w, lo, hi);
      MulMonotone(a, lo, x);
      MulMonotone(a, x, hi);
      AddBoth(lo * Total(p), Moment(p, w), a * lo, a * x);
      AddBoth(Moment(p, w), hi * Total(p), a * x, a * hi);
      Distribute(lo, Total(p), a);
      Distribute(hi, Total(p), a);
    }
  }

  lemma Distribute(k: real, t: real, a: real)
    ensures k * (t + a) == k * t + a * k
  {
  }

  /** Dividing by a positive total keeps the bounds. */
  lemma DivWithin(m: real, t: real, lo: real, hi: real)
    requires t > 0.0 && lo * t <= m <= hi * t
    ensures lo <= m / t <= hi
  {
    var q := m / t;
    assert q * t == m;
    if q < lo {
      MulMonotone(t, q, lo);
      assert false;
    }
    if q > hi {
      MulMonotone(t, hi, q);
      assert false;
    }
  }

  /**
   * The atomic fractions of a non-empty composition sum to one, so the
   * weighted sum is an average: between the least and the greatest weight.
   */
  lemma WeightedWithin<E>(c: Composition<E>, w: E -> real, lo: real, hi: real)
    requires Positive(c) && |c| > 0
    requires forall i :: 0 <= i < |c| ==> lo <= w(c[i].0) <= hi
    ensures lo <= Weighted(c, w) <= hi
  {
    DotIsMoment(c, w, Total(c));
    MomentWithin(c, w, lo, hi);
    DivWithin(Moment(c, w), Total(c), lo, hi);
  }

  /** Weighted sums add up weight by weight. */
  lemma {:induction false} DotAdds<E>(c: Composition<E>, v: E -> real, w: E -> real, u: E -> real, t: real)
    requires t > 0.0
    requires forall i :: 0 <= i < |c| ==> u(c[i].0) == v(c[i].0) + w(c[i].0)
    ensures Dot(c, u, t) == Dot(c, v, t) + Dot(c, w, t)
  {
    if |c| > 0 {
      var p := c[..|c| - 1];
      assert forall i :: 0 <= i < |p| ==> p[i] == c[i];
      DotAdds(p, v, w, u, t);
    }
  }

  // ---------------------------------------------------------------------------
  // The frac* family
  // ---------------------------------------------------------------------------

  /** `x.is_<class>` as the 0/1 factor that `mul` sees. */
  function Indicator<E>(data: ElementData<E>, k: ElementClass): E -> real {
    e => if data.inClass(k, e) then 1.0 else 0.0
  }

  /** The atomic fraction of the composition that belongs to class `k`, before rounding. */
  function ClassFraction<E>(data: ElementData<E>, k: ElementClass, c: Composition<E>): real
    requires Positive(c)
  {
    Weighted(c, Indicator(data, k))
  }

  /**
   * A class fraction lies in [0, 1]; it is 1 when every element is in the
   * class and 0 when none is, and so exactly 1 or 0 for a single element.
   */
  lemma ClassFractionBounds<E>(data: ElementData<E>, k: ElementClass, c: Composition<E>)
    requires Positive(c)
    ensures 0.0 <= ClassFraction(data, k, c) <= 1.0
    ensures |c| > 0 && (forall i :: 0 <= i < |c| ==> data.inClass(k, c[i].0)) ==> ClassFraction(data, k, c) == 1.0
    ensures (forall i :: 0 <= i < |c| ==> !data.inClass(k, c[i].0)) ==> ClassFraction(data, k, c) == 0.0
    ensures |c| == 1 ==> ClassFraction(data, k, c) == if data.inClass(k, c[0].0) then 1.0 else 0.0
  {
    var w := Indicator(data, k);
    if |c| > 0 {
      WeightedWithin(c, w, 0.0, 1.0);
      if forall i :: 0 <= i < |c| ==> data.inClass(k, c[i].0) {
        WeightedWithin(c, w, 1.0, 1.0);
      }
      if forall i :: 0 <= i < |c| ==> !data.inClass(k, c[i].0) {
        WeightedWithin(c, w, 0.0, 0.0);
      }
    }
  }

  /** The fractions inside and outside a class add up to one. */
  lemma ClassFractionComplement<E>(data: ElementData<E>, k: ElementClass, c: Composition<E>)
    requires Positive(c) && |c| > 0
    ensures
      var outside := ElementData((j: ElementClass, e: E) => !data.inClass(j, e), data.commonOxidationStates,
                                 data.electronegativity, data.atomicRadius, data.row);
      ClassFraction(data, k, c) + ClassFraction(outside, k, c) == 1.0
  {
    var outside := ElementData((j: ElementClass, e: E) => !data.inClass(j, e), data.commonOxidationStates,
                               data.electronegativity, data.atomicRadius, data.row);
    var one := (e: E) => 1.0;
    DotAdds(c, Indicator(data, k), Indicator(outside, k), one, Total(c));
    WeightedWithin(c, one, 1.0, 1.0);
  }

  /** Decimal places of the `round` in each frac descriptor: four, or a whole number. */
  function Places(k: ElementClass): nat {
    match k
    case TransitionMetal | RareEarthMetal | NobleGas | Actinoid => 4
    case Metalloid | Lanthanoid | Halogen | Chalcogen | Alkaline | Alkali => 0
  }

  /**
   * `fracTransitionMetal(a)`, ..., `fracActinoid(a)`: the class fraction
   * rounded to `Places(k)` decimals. It stays in [0, 1]; the six descriptors
   * that round to a whole number answer 0 or 1, and 1 exactly when at least
   * half the atoms are in the class.
   */
  function Frac<E>(data: ElementData<E>, k: ElementClass, s: Structure<E>): (r: real)
    requires Positive(s.composition)
    ensures 0.0 <= r <= 1.0
    ensures Places(k) == 0 ==> (r == 0.0 || r == 1.0)
    ensures Places(k) == 0 ==> (r == 1.0 <==> ClassFraction(data, k, s.composition) >= 0.5)
  {
    var x := ClassFraction(data, k, s.composition);
    ClassFractionBounds(data, k, s.composition);
    RoundWithin(x, Places(k), 0, 1);
    if Places(k) == 0 then RoundUnitToWhole(x); Round(x, 0) else Round(x, Places(k))
  }

  /** A structure made of one class only scores 1, one made of none of it 0. */
  lemma FracAllOrNone<E>(data: ElementData<E>, k: ElementClass, s: Structure<E>)
    requires Positive(s.composition)
    ensures (|s.composition| > 0 && forall i :: 0 <= i < |s.composition| ==> data.inClass(k, s.composition[i].0))
              ==> Frac(data, k, s) == 1.0
    ensures (forall i :: 0 <= i < |s.composition| ==> !data.inClass(k, s.composition[i].0))
              ==> Frac(data, k, s) == 0.0
  {
    ClassFractionBounds(data, k, s.composition);
    RoundWithin(1.0, Places(k), 1, 1);
    RoundWithin(0.0, Places(k), 0, 0);
  }

  // ---------------------------------------------------------------------------
  // electronsPerAtom
  // ---------------------------------------------------------------------------

  /** `x.common_oxidation_states[0]`, where there is one. */
  function FirstOxidationState<E>(data: ElementData<E>): E -> real {
    e => if |data.commonOxidationStates(e)| > 0 then data.commonOxidationStates(e)[0] as real else 0.0
  }

  /** Some element of the composition has no common oxidation state (the IndexError). */
  predicate LacksOxidationState<E>(data: ElementData<E>, c: Composition<E>) {
    exists i :: 0 <= i < |c| && |data.commonOxidationStates(c[i].0)| == 0
  }

  /**
   * `electronsPerAtom(a)`: -1000 when some element has no common oxidation
   * state; otherwise the atomic-fraction-weighted first oxidation states,
   * rounded to 4 places.
   */
  function ElectronsPerAtom<E>(data: ElementData<E>, s: Structure<E>): (r: real)
    requires Positive(s.composition)
    ensures LacksOxidationState(data, s.composition) ==> r == -1000.0
    ensures !LacksOxidationState(data, s.composition) && |s.composition| == 0 ==> r == 0.0
  {
    if LacksOxidationState(data, s.composition) then -1000.0
    else
      RoundWithin(0.0, 4, 0, 0);
      Round(Weighted(s.composition, FirstOxidationState(data)), 4)
  }

  /**
   * Without a missing oxidation state the answer is an average of the first
   * oxidation states: it lies between the least and the greatest of them,
   * and so it is never the sentinel when they are all above -1000.
   */
  lemma ElectronsPerAtomIsAverage<E>(data: ElementData<E>, s: Structure<E>, lo: int, hi: int)
    requires Positive(s.composition) && |s.composition| > 0
    requires !LacksOxidationState(data, s.composition)
    requires forall i :: 0 <= i < |s.composition| ==>
               lo as real <= FirstOxidationState(data)(s.composition[i].0) <= hi as real
    ensures lo as real <= ElectronsPerAtom(data, s) <= hi as real
    ensures lo > -1000 ==> ElectronsPerAtom(data, s) != -1000.0
  {
    var x := Weighted(s.composition, FirstOxidationState(data));
    WeightedWithin(s.composition, FirstOxidationState(data), lo as real, hi as real);
    RoundWithin(x, 4, lo, hi);
  }

  /** With first oxidation states above -1000, the sentinel means exactly that one is missing. */
  lemma ElectronsPerAtomSentinel<E>(data: ElementData<E>, s: Structure<E>)
    requires Positive(s.composition)
    requires forall i :: 0 <= i < |s.composition| ==>
               forall j :: 0 <= j < |data.commonOxidationStates(s.composition[i].0)| ==>
                 -1000 < data.commonOxidationStates(s.composition[i].0)[j] < 1000
    ensures ElectronsPerAtom(data, s) == -1000.0 <==> LacksOxidationState(data, s.composition)
  {
    if !LacksOxidationState(data, s.composition) && |s.composition| > 0 {
      ElectronsPerAtomIsAverage(data, s, -999, 999);
    }
  }

  // ---------------------------------------------------------------------------
  // Ranges: np.ptp
  // ---------------------------------------------------------------------------

  function Max(xs: seq<real>): (m: real)
    requires |xs| > 0
    ensures (exists i :: 0 <= i < |xs| && xs[i] == m) && forall i :: 0 <= i < |xs| ==> xs[i] <= m
  {
    if |xs| == 1 then xs[0]
    else
      var m := Max(xs[..|xs| - 1]);
      assert forall i :: 0 <= i < |xs| - 1 ==> xs[..|xs| - 1][i] == xs[i];
      if xs[|xs| - 1] > m then xs[|xs| - 1] else m
  }

  function Min(xs: seq<real>): (m: real)
    requires |xs| > 0
    ensures (exists i :: 0 <= i < |xs| && xs[i] == m) && forall i :: 0 <= i < |xs| ==> m <= xs[i]
  {
    if |xs| == 1 then xs[0]
    else
      var m := Min(xs[..|xs| - 1]);
      assert forall i :: 0 <= i < |xs| - 1 ==> xs[..|xs| - 1][i] == xs[i];
      if xs[|xs| - 1] < m then xs[|xs| - 1] else m
  }

  /** `np.ptp(xs)`: the greatest value minus the least; an empty list raises ValueError. */
  function PeakToPeak(xs: seq<real>): (r: Result<real>)
    ensures r.Err? <==> |xs| == 0
    ensures r.Err? ==> r.error == ValueError
    ensures r.Ok? ==> r.value >= 0.0
    ensures r.Ok? ==> (r.value == 0.0 <==> forall i, j :: 0 <= i < |xs| && 0 <= j < |xs| ==> xs[i] == xs[j])
  {
    if |xs| == 0 then Err(ValueError) else Ok(Max(xs) - Min(xs))
  }

  /** `[f(x) for x in a.species]`. */
  function OverSites<E, V>(species: seq<E>, f: E -> V): (r: seq<V>)
    ensures |r| == |species| && forall i :: 0 <= i < |species| ==> r[i] == f(species[i])
  {
    seq(|species|, i requires 0 <= i < |species| => f(species[i]))
  }

  /** `round(np.ptp(xs), 4)`, the ValueError of an empty list passed on. */
  function RoundedRange(xs: seq<real>): (r: Result<real>)
    ensures r.Err? <==> |xs| == 0
    ensures r.Err? ==> r.error == ValueError
    ensures r.Ok? ==> r.value >= 0.0
  {
    match PeakToPeak(xs)
    case Err(e) => Err(e)
    case Ok(v) => RoundWithin(v, 4, 0, v.Floor + 1); Ok(Round(v, 4))
  }

  /** A list of equal values has range 0 whatever the rounding. */
  lemma RoundedRangeOfEqual(xs: seq<real>)
    requires |xs| > 0 && forall i :: 0 <= i < |xs| ==> xs[i] == xs[0]
    ensures RoundedRange(xs) == Ok(0.0)
  {
    RoundWithin(0.0, 4, 0, 0);
  }

  /** `electronegativityRange(a)`. */
  function ElectronegativityRange<E>(data: ElementData<E>, s: Structure<E>): Result<real> {
    RoundedRange(OverSites(s.species, data.electronegativity))
  }

  /** `rowRange(a)`: rows are whole numbers. */
  function RowRange<E>(data: ElementData<E>, s: Structure<E>): Result<real> {
    RoundedRange(OverSites(s.species, (e: E) => data.row(e) as real))
  }

  /**
   * The two ranges: a ValueError on a structure without sites, otherwise a
   * non-negative number, 0 when every site holds the same element.
   */
  lemma RangesOfStructure<E>(data: ElementData<E>, s: Structure<E>)
    ensures ElectronegativityRange(data, s).Err? <==> |s.species| == 0
    ensures RowRange(data, s).Err? <==> |s.species| == 0
    ensures ElectronegativityRange(data, s).Err? ==> ElectronegativityRange(data, s).error == ValueError
    ensures RowRange(data, s).Err? ==> RowRange(data, s).error == ValueError
    ensures ElectronegativityRange(data, s).Ok? ==> ElectronegativityRange(data, s).value >= 0.0
    ensures RowRange(data, s).Ok? ==> RowRange(data, s).value >= 0.0
    ensures |s.species| > 0 && (forall i :: 0 <= i < |s.species| ==> s.species[i] == s.species[0]) ==>
              ElectronegativityRange(data, s) == Ok(0.0) && RowRange(data, s) == Ok(0.0)
  {
    if |s.species| > 0 && (forall i :: 0 <= i < |s.species| ==> s.species[i] == s.species[0]) {
      RoundedRangeOfEqual(OverSites(s.species, data.electronegativity));
      RoundedRangeOfEqual(OverSites(s.species, (e: E) => data.row(e) as real));
    }
  }

  // ---------------------------------------------------------------------------
  // radiiRange and radiiStd
  // ---------------------------------------------------------------------------

  /** Some site's element has no atomic radius (`None`, so the arithmetic raises TypeError). */
  predicate LacksRadius<E>(data: ElementData<E>, s: Structure<E>) {
    exists i :: 0 <= i < |s.species| && data.atomicRadius(s.species[i]).None?
  }

  /** The radii of the sites, where none is missing. */
  function Radii<E>(data: ElementData<E>, s: Structure<E>): (r: seq<real>)
    requires !LacksRadius(data, s)
    ensures |r| == |s.species|
  {
    seq(|s.species|, i requires 0 <= i < |s.species| => data.atomicRadius(s.species[i]).value)
  }

  /**
   * `radiiRange(a)`: the ValueError of an empty list is not caught; the
   * TypeError of a missing radius gives -1000.
   */
  function RadiiRange<E>(data: ElementData<E>, s: Structure<E>): (r: Result<real>)
    ensures r.Err? <==> |s.species| == 0
    ensures r == Ok(-1000.0) <==> LacksRadius(data, s)
    ensures r.Ok? && !LacksRadius(data, s) ==> r.value >= 0.0
  {
    if |s.species| == 0 then Err(ValueError)
    else if LacksRadius(data, s) then Ok(-1000.0)
    else RoundedRange(Radii(data, s))
  }

  /** The mean of a non-empty list. */
  function Mean(xs: seq<real>): real
    requires |xs| > 0
  {
    Sum(xs) / |xs| as real
  }

  function Sum(xs: seq<real>): real {
    if |xs| == 0 then 0.0 else Sum(xs[..|xs| - 1]) + xs[|xs| - 1]
  }

  lemma SquareNonNegative(y: real)
    ensures y * y >= 0.0
  {
    if y > 0.0 {
      MulMonotone(y, 0.0, y);
    } else if y < 0.0 {
      assert y * y == (-y) * (-y);
      MulMonotone(-y, 0.0, -y);
    }
  }

  /** The sum of squared deviations from `m`. */
  function Squares(xs: seq<real>, m: real): (r: real)
    ensures r >= 0.0
  {
    if |xs| == 0 then 0.0
    else
      var y := xs[|xs| - 1] - m;
      SquareNonNegative(y);
      Squares(xs[..|xs| - 1], m) + y * y
  }

  /** What `np.std` takes the square root of: the mean squared deviation from the mean. */
  function PopulationVariance(xs: seq<real>): (v: real)
    requires |xs| > 0
    ensures v >= 0.0
  {
    Squares(xs, Mean(xs)) / |xs| as real
  }

  /** The outcome of `radiiStd(a)`: the sentinel, NaN for no sites, or a deviation given by its variance. */
  datatype Spread = Sentinel | NotANumber | Deviation(variance: real)

  /**
   * `radiiStd(a)`: -1000 when a radius is missing, NaN (numpy's answer for
   * an empty list) when there are no sites, and otherwise the population
   * standard deviation, here its square.
   */
  function RadiiStd<E>(data: ElementData<E>, s: Structure<E>): (r: Spread)
    ensures r.Sentinel? <==> LacksRadius(data, s)
    ensures r.NotANumber? <==> |s.species| == 0
    ensures r.Deviation? ==> r.variance >= 0.0
  {
    if LacksRadius(data, s) then Sentinel
    else if |s.species| == 0 then NotANumber
    else Deviation(PopulationVariance(Radii(data, s)))
  }

  // ---------------------------------------------------------------------------
  // The lattice guard of crystalSystem and spaceGroup
  // ---------------------------------------------------------------------------

  /** The answers of pymatgen's SymmetryFinder on a structure. */
  datatype SymmetryFinder<!E> = SymmetryFinder(crystalSystem: Structure<E> -> string, spaceGroupSymbol: Structure<E> -> string)

  /** `np.std([a, b, c]) > 20`, squared: the lattice lengths are too spread out to search for symmetry. */
  predicate SkipsSymmetry(l: Lattice) {
    PopulationVariance([l.a, l.b, l.c]) > 400.0
  }

  /** The guard reads as the source's test on the standard deviation. */
  lemma StdAboveTwenty(l: Lattice, sd: real)
    requires sd >= 0.0 && sd * sd == PopulationVariance([l.a, l.b, l.c])
    ensures sd > 20.0 <==> SkipsSymmetry(l)
  {
    if sd > 20.0 {
      MulMonotone(sd, 20.0, sd);
      MulMonotone(20.0, 20.0, sd);
    } else {
      if sd > 0.0 {
        MulMonotone(sd, sd, 20.0);
      }
      MulMonotone(20.0, sd, 20.0);
    }
  }

  /** The variance of three lengths through their pairwise differences. */
  lemma LatticeVariance(l: Lattice)
    ensures PopulationVariance([l.a, l.b, l.c])
            == ((l.a - l.b) * (l.a - l.b) + (l.b - l.c) * (l.b - l.c) + (l.c - l.a) * (l.c - l.a)) / 9.0
  {
    var xs := [l.a, l.b, l.c];
    assert xs[..2] == [l.a, l.b] && [l.a, l.b][..1] == [l.a] && [l.a][..0] == [];
    assert Sum([l.a]) == l.a;
    assert Sum([l.a, l.b]) == l.a + l.b;
    assert Sum(xs) == l.a + l.b + l.c;
    var m := (l.a + l.b + l.c) / 3.0;
    assert Mean(xs) == m;
    assert Squares([l.a], m) == (l.a - m) * (l.a - m);
    assert Squares([l.a, l.b], m) == (l.a - m) * (l.a - m) + (l.b - m) * (l.b - m);
    assert Squares(xs, m) == (l.a - m) * (l.a - m) + (l.b - m) * (l.b - m) + (l.c - m) * (l.c - m);
  }

  /** A cubic lattice is never skipped. */
  lemma CubicNotSkipped(x: real)
    ensures !SkipsSymmetry(Lattice(x, x, x))
  {
    LatticeVariance(Lattice(x, x, x));
  }

  /** A tetragonal lattice (x, x, x + d) is skipped exactly when d^2 exceeds 1800 (d beyond about 42.4). */
  lemma TetragonalSkipped(x: real, d: real)
    ensures SkipsSymmetry(Lattice(x, x, x + d)) <==> d * d > 1800.0
  {
    LatticeVariance(Lattice(x, x, x + d));
    assert (x - x) * (x - x) == 0.0;
    assert (x - (x + d)) * (x - (x + d)) == d * d;
    assert (x + d - x) * (x + d - x) == d * d;
    var y := d * d;
    assert PopulationVariance([x, x, x + d]) == (y + y) / 9.0;
  }

  /** The guard: 'NA' past the threshold, the finder's answer otherwise. */
  function Guarded<E>(s: Structure<E>, query: Structure<E> -> string): (r: string)
    ensures SkipsSymmetry(s.lattice) ==> r == "NA"
    ensures !SkipsSymmetry(s.lattice) ==> r == query(s)
  {
    if SkipsSymmetry(s.lattice) then "NA" else query(s)
  }

  /** `crystalSystem(a)`. */
  function CrystalSystem<E>(finder: SymmetryFinder<E>, s: Structure<E>): string {
    Guarded(s, finder.crystalSystem)
  }

  /** `spaceGroup(a)`. */
  function SpaceGroup<E>(finder: SymmetryFinder<E>, s: Structure<E>): string {
    Guarded(s, finder.spaceGroupSymbol)
  }

  /** Past the threshold the finder is never consulted: any two finders give the same 'NA'. */
  lemma SkippedIgnoresFinder<E>(f: SymmetryFinder<E>, g: SymmetryFinder<E>, s: Structure<E>)
    requires SkipsSymmetry(s.lattice)
    ensures CrystalSystem(f, s) == CrystalSystem(g, s) == "NA"
    ensures SpaceGroup(f, s) == SpaceGroup(g, s) == "NA"
  {
  }
}
