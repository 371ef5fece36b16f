/** The rule base built by the `FuzzyDHT` constructor and the `FuzzyDHT` object itself,
    whose `update` runs the inference engine and stores its crisp output. */
module FuzzyDht {
  import opened Common
  import opened FuzzySets

  /** The antecedent of a rule; every rule of the controller joins two sets with AND. */
  datatype Antecedent = JoinWithAnd(in1: SetName, in2: SetName)

  /** A rule: its identifier, its antecedent and its single consequent set. */
  datatype Rule = Rule(id: int, antecedent: Antecedent, consequent: SetName)

  /** A rule whose first antecedent is a temperature set, whose second is a humidity set
      and whose consequent is a watering set. */
  predicate WellFormed(r: Rule) {
    Owner(r.antecedent.in1) == Suhu && Owner(r.antecedent.in2) == Hum
    && Owner(r.consequent) == Siram
  }

  /** `createNewFuzzyRule`: the AND of `in1` and `in2` implies `out1`, under `ruleId`. */
  function CreateNewFuzzyRule(ruleId: int, in1: SetName, in2: SetName, out1: SetName): (r: Rule)
    ensures r.id == ruleId && r.consequent == out1
    ensures r.antecedent.in1 == in1 && r.antecedent.in2 == in2
    ensures WellFormed(r) <==> Owner(in1) == Suhu && Owner(in2) == Hum && Owner(out1) == Siram
  {
    Rule(ruleId, JoinWithAnd(in1, in2), out1)
  }

  /** The nine rules in the order the constructor adds them. */
  function Rules(): (rs: seq<Rule>)
    ensures |rs| == 9
    ensures forall i :: 0 <= i < |rs| ==> rs[i].id == i + 1 && WellFormed(rs[i])
  {
    [ CreateNewFuzzyRule(1, SuhuDingin, HumKering, SiramSebentar),
      CreateNewFuzzyRule(2, SuhuDingin, HumNormal, SiramCukup),
      CreateNewFuzzyRule(3, SuhuDingin, HumLembab, SiramSebentar),
      CreateNewFuzzyRule(4, SuhuNormal, HumKering, SiramSebentar),
      CreateNewFuzzyRule(5, SuhuNormal, HumNormal, SiramCukup),
      CreateNewFuzzyRule(6, SuhuNormal, HumLembab, SiramCukup),
      CreateNewFuzzyRule(7, SuhuPanas, HumKering, SiramLama),
      CreateNewFuzzyRule(8, SuhuPanas, HumNormal, SiramCukup),
      CreateNewFuzzyRule(9, SuhuPanas, HumLembab, SiramLama) ]
  }

  /** The position of the first rule in `rs` whose antecedent is `in1 AND in2`. */
  function FindRule(rs: seq<Rule>, in1: SetName, in2: SetName): (k: Option<nat>)
    ensures k.Some? ==> k.value < |rs| && rs[k.value].antecedent == JoinWithAnd(in1, in2)
    ensures k.Some? ==> forall j :: 0 <= j < k.value ==> rs[j].antecedent != JoinWithAnd(in1, in2)
    ensures k.None? ==> forall j :: 0 <= j < |rs| ==> rs[j].antecedent != JoinWithAnd(in1, in2)
  {
    if |rs| == 0 then None
    else if rs[0].antecedent == JoinWithAnd(in1, in2) then Some(0)
    else match FindRule(rs[1..], in1, in2)
      case None => None
      case Some(k) => Some(k + 1)
  }

  /** The ids are strictly ascending, hence distinct. */
  lemma RuleIdsAscending(i: nat, j: nat)
    requires i < j < |Rules()|
    ensures Rules()[i].id < Rules()[j].id
  {
  }

  /** No two rules have the same antecedent. */
  lemma AntecedentsDistinct(i: nat, j: nat)
    requires i < j < |Rules()|
    ensures Rules()[i].antecedent != Rules()[j].antecedent
  {
  }

  /** The table is a total function on the 3 x 3 grid: a pair of sets has a rule exactly
      when it is a temperature set and a humidity set ... */
  lemma RuleGridTotal(in1: SetName, in2: SetName)
    ensures FindRule(Rules(), in1, in2).Some? <==> Owner(in1) == Suhu && Owner(in2) == Hum
  {
    var rs := Rules();
    if Owner(in1) == Suhu && Owner(in2) == Hum {
      var i: nat := 3 * (if in1 == SuhuDingin then 0 else if in1 == SuhuNormal then 1 else 2)
                  + (if in2 == HumKering then 0 else if in2 == HumNormal then 1 else 2);
      assert rs[i].antecedent == JoinWithAnd(in1, in2);
    }
  }

  /** ... and then by exactly one rule. */
  lemma RuleForPairUnique(in1: SetName, in2: SetName, i: nat, j: nat)
    requires i < |Rules()| && j < |Rules()|
    requires Rules()[i].antecedent == JoinWithAnd(in1, in2)
    requires Rules()[j].antecedent == JoinWithAnd(in1, in2)
    ensures i == j
  {
    if i < j { AntecedentsDistinct(i, j); } else if j < i { AntecedentsDistinct(j, i); }
  }

  /** The consequent the table gives to a temperature set and a humidity set. */
  function Consequent(in1: SetName, in2: SetName): (out1: SetName)
    requires Owner(in1) == Suhu && Owner(in2) == Hum
    ensures Owner(out1) == Siram
    ensures exists i :: 0 <= i < |Rules()| && Rules()[i] == Rule(i + 1, JoinWithAnd(in1, in2), out1)
  {
    RuleGridTotal(in1, in2);
    var k := FindRule(Rules(), in1, in2);
    assert Rules()[k.value].id == k.value + 1;
    Rules()[k.value].consequent
  }

  /** The order of the watering sets: short < moderate < long. */
  function Rank(out1: SetName): nat
    requires Owner(out1) == Siram
  {
    match out1
    case SiramSebentar => 0
    case SiramCukup => 1
    case SiramLama => 2
  }

  /** With the humidity set held fixed, a hotter temperature set never selects a
      shorter watering set. */
  lemma ConsequentMonotoneInTemperature(in2: SetName)
    requires Owner(in2) == Hum
    ensures Rank(Consequent(SuhuDingin, in2)) <= Rank(Consequent(SuhuNormal, in2))
    ensures Rank(Consequent(SuhuNormal, in2)) <= Rank(Consequent(SuhuPanas, in2))
  {
    var col := if in2 == HumKering then 0 else if in2 == HumNormal then 1 else 2;
    ConsequentOfRule(col);
    ConsequentOfRule(3 + col);
    ConsequentOfRule(6 + col);
  }

  /** The normal-humidity rules (2, 5 and 8) all water for a moderate time. */
  lemma NormalHumidityIsModerate(in1: SetName)
    requires Owner(in1) == Suhu
    ensures Consequent(in1, HumNormal) == SiramCukup
  {
    ConsequentOfRule(3 * (if in1 == SuhuDingin then 0 else if in1 == SuhuNormal then 1 else 2) + 1);
  }

  /** The consequent of a pair is the one its rule in the table names. */
  lemma ConsequentOfRule(i: nat)
    requires i < |Rules()|
    ensures Consequent(Rules()[i].antecedent.in1, Rules()[i].antecedent.in2) == Rules()[i].consequent
  {
    var r := Rules()[i];
    var out1 := Consequent(r.antecedent.in1, r.antecedent.in2);
    var j :| 0 <= j < |Rules()| && Rules()[j] == Rule(j + 1, JoinWithAnd(r.antecedent.in1, r.antecedent.in2), out1);
    RuleForPairUnique(r.antecedent.in1, r.antecedent.in2, i, j);
  }

  /** The `FuzzyDHT` object: the public `duration_out` and the engine built over the
      sets and rules above. The engine itself (fuzzification, min/max aggregation,
      centroid defuzzification) is the function `infer`. */
  class FuzzyDHT {
    var durationOut: real
    const infer: (real, real) -> real

    constructor (engine: (real, real) -> real)
      ensures durationOut == 0.0 && infer == engine
    {
      durationOut := 0.0;
      infer := engine;
    }

    /** Feed temperature and humidity to the engine and store its crisp output. */
    method Update(tempx: real, humx: real)
      modifies this`durationOut
      ensures durationOut == infer(tempx, humx)
    {
      durationOut := infer(tempx, humx);
    }
  }
}
