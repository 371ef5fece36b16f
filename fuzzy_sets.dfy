/** The fuzzy knowledge base of `FuzzyDHT.h`: the three linguistic variables, their
    identifiers, and the nine trapezoidal sets with their breakpoints. All of it is
    constant data, fixed when the object is built and never changed. */
module FuzzySets {

  /** A trapezoidal set: membership rises from `a` to `b`, is full from `b` to `c` and
      falls from `c` to `d`. */
  datatype Trapezoid = Trapezoid(a: real, b: real, c: real, d: real)

  predicate Sorted(t: Trapezoid) {
    t.a <= t.b <= t.c <= t.d
  }

  /** A triangle is a trapezoid whose plateau is a single point. */
  predicate Triangle(t: Trapezoid) {
    t.b == t.c
  }

  /** The input variables temperature (suhu) and humidity, and the output variable
      watering duration (siram). */
  datatype Variable = Suhu | Hum | Siram

  const FUZZY_IN_SUHU: nat := 1
  const FUZZY_IN_HUM: nat := 2
  const FUZZY_OUT_SIRAM: nat := 3

  /** The identifier under which the engine registers each variable. */
  function VariableId(v: Variable): (id: nat)
    ensures 1 <= id <= 3
  {
    match v
    case Suhu => FUZZY_IN_SUHU
    case Hum => FUZZY_IN_HUM
    case Siram => FUZZY_OUT_SIRAM
  }

  /** No two variables share an identifier. */
  lemma VariableIdsDistinct(v: Variable, w: Variable)
    ensures VariableId(v) == VariableId(w) <==> v == w
  {
  }

  /** The nine sets: cold, normal and hot temperature; dry, normal and humid air; short,
      moderate and long watering. */
  datatype SetName =
    | SuhuDingin | SuhuNormal | SuhuPanas
    | HumKering | HumNormal | HumLembab
    | SiramSebentar | SiramCukup | SiramLama

  /** The variable each set belongs to. */
  function Owner(s: SetName): Variable {
    match s
    case SuhuDingin | SuhuNormal | SuhuPanas => Suhu
    case HumKering | HumNormal | HumLembab => Hum
    case SiramSebentar | SiramCukup | SiramLama => Siram
  }

  /** The breakpoints each set is constructed with. */
  function Shape(s: SetName): (t: Trapezoid)
    ensures Sorted(t)
    ensures 0.0 <= t.a && t.d <= 100.0
  {
    match s
    case SuhuDingin => Trapezoid(0.0, 0.0, 19.0, 25.0)
    case SuhuNormal => Trapezoid(20.0, 25.0, 25.0, 30.0)
    case SuhuPanas => Trapezoid(25.0, 30.0, 50.0, 50.0)
    case HumKering => Trapezoid(0.0, 0.0, 50.0, 70.0)
    case HumNormal => Trapezoid(50.0, 70.0, 70.0, 90.0)
    case HumLembab => Trapezoid(70.0, 90.0, 100.0, 100.0)
    case SiramSebentar => Trapezoid(0.0, 0.0, 7.0, 10.0)
    case SiramCukup => Trapezoid(7.0, 10.0, 10.0, 12.0)
    case SiramLama => Trapezoid(10.0, 12.0, 15.0, 15.0)
  }

  /** The sets of a variable in the order they are added to it. */
  function Sets(v: Variable): (ss: seq<SetName>)
    ensures |ss| == 3
    ensures forall i :: 0 <= i < |ss| ==> Owner(ss[i]) == v
    ensures forall i, j :: 0 <= i < j < |ss| ==> ss[i] != ss[j]
    ensures forall s :: Owner(s) == v ==> s in ss
  {
    match v
    case Suhu => [SuhuDingin, SuhuNormal, SuhuPanas]
    case Hum => [HumKering, HumNormal, HumLembab]
    case Siram => [SiramSebentar, SiramCukup, SiramLama]
  }

  /** The lower end of a variable's domain: the start of its first set's support. */
  function Low(v: Variable): real {
    Shape(Sets(v)[0]).a
  }

  /** The upper end of a variable's domain: the end of its last set's support. */
  function High(v: Variable): real {
    Shape(Sets(v)[2]).d
  }

  /** The domains are [0, 50] degrees, [0, 100] percent and [0, 15] watering units. */
  lemma Domains()
    ensures Low(Suhu) == 0.0 && High(Suhu) == 50.0
    ensures Low(Hum) == 0.0 && High(Hum) == 100.0
    ensures Low(Siram) == 0.0 && High(Siram) == 15.0
  {
  }

  /** The middle set of each variable is a triangle. */
  lemma MiddleSetsAreTriangles(v: Variable)
    ensures Triangle(Shape(Sets(v)[1]))
  {
  }

  /** The outer sets are shoulders: the first is full from the low end of the domain,
      the last is full up to its high end. */
  lemma OuterSetsAreShoulders(v: Variable)
    ensures Shape(Sets(v)[0]).a == Shape(Sets(v)[0]).b == Low(v) == 0.0
    ensures Shape(Sets(v)[2]).c == Shape(Sets(v)[2]).d == High(v)
  {
  }

  /** Every set of a variable lies within [Low, High], so that interval is exactly the
      span from the least `a` to the greatest `d` (the output universe of the centroid). */
  lemma DomainIsSpanOfSupports(v: Variable, s: SetName)
    requires Owner(s) == v
    ensures Low(v) <= Shape(s).a && Shape(s).d <= High(v)
  {
  }

  /** Adjacent sets overlap: the next set starts before the previous one ends, so two
      sets can hold at once. */
  lemma AdjacentSetsOverlap(v: Variable, i: nat)
    requires i + 1 < |Sets(v)|
    ensures Shape(Sets(v)[i + 1]).a < Shape(Sets(v)[i]).d
  {
  }

  /** The supports cover the whole domain: every value in [Low, High] lies in the
      support [a, d] of some set of the variable. */
  lemma SupportsCoverDomain(v: Variable, x: real)
    requires Low(v) <= x <= High(v)
    ensures exists i :: 0 <= i < |Sets(v)| && Shape(Sets(v)[i]).a <= x <= Shape(Sets(v)[i]).d
  {
    var ss := Sets(v);
    if x <= Shape(ss[0]).d {
      assert Shape(ss[0]).a <= x <= Shape(ss[0]).d;
    } else if x <= Shape(ss[1]).d {
      assert Shape(ss[1]).a <= x <= Shape(ss[1]).d;
    } else {
      assert Shape(ss[2]).a <= x <= Shape(ss[2]).d;
    }
  }
}
