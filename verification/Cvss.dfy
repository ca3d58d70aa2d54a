// CVSS 3.1 scores, in exact arithmetic: the two ways of rounding up to a tenth, base scores, and
// environmental scores under the fixed temporal metrics of a static finding.

module Cvss {
  // ---- rounding ----

  // round(): to the nearest integer, a half to the even one.
  function Round(x: real): int {
    var f := x.Floor;
    var d := x - f as real;
    if d < 0.5 then f else if d > 0.5 then f + 1 else if f % 2 == 0 then f else f + 1
  }

  function UpToTenth(n: int): real {
    if n % 10000 == 0 then n as real / 100000.0 else (n / 10000 + 1) as real / 10.0
  }

  function RoundUp1(x: real): real { UpToTenth(Round(x * 100000.0)) }

  // The same with the digits beyond the fifth cut off, not rounded.
  function TruncatingRoundUp1(x: real): real { UpToTenth((x * 100000.0).Floor) }

  function Tenth(k: int): real { k as real / 10.0 }

  // k tenths is the least number of tenths that is not below n hundred-thousandths.
  predicate IsLeastTenth(k: int, n: int) { 10000 * (k - 1) < n <= 10000 * k }

  lemma UpToTenthIsLeast(n: int) returns (k: int)
    ensures UpToTenth(n) == Tenth(k) && IsLeastTenth(k, n)
  {
    k := if n % 10000 == 0 then n / 10000 else n / 10000 + 1;
    assert n == 10000 * (n / 10000) + n % 10000;
  }

  lemma LeastTenthIsUnique(j: int, k: int, n: int)
    requires IsLeastTenth(j, n) && IsLeastTenth(k, n)
    ensures j == k
  {
  }

  lemma UpToTenthIsMonotone(m: int, n: int)
    requires m <= n
    ensures UpToTenth(m) <= UpToTenth(n)
  {
    var j := UpToTenthIsLeast(m);
    var k := UpToTenthIsLeast(n);
    assert j <= k;
  }

  lemma RoundIsMonotone(x: real, y: real)
    requires x <= y
    ensures Round(x) <= Round(y)
  {
    assert x.Floor <= y.Floor;
  }

  lemma RoundIsNear(x: real)
    ensures x - 0.5 <= Round(x) as real <= x + 0.5
    ensures x == x.Floor as real ==> Round(x) == x.Floor
  {
  }

  // The least tenth not below x rounded to five decimals.
  lemma RoundUpIsLeastTenth(x: real) returns (k: int)
    ensures RoundUp1(x) == Tenth(k) && IsLeastTenth(k, Round(x * 100000.0))
    ensures x - 0.000005 <= RoundUp1(x) < x + 0.100005
  {
    k := UpToTenthIsLeast(Round(x * 100000.0));
    RoundIsNear(x * 100000.0);
  }

  lemma RoundUpIsMonotone(x: real, y: real)
    requires x <= y
    ensures RoundUp1(x) <= RoundUp1(y)
  {
    RoundIsMonotone(x * 100000.0, y * 100000.0);
    UpToTenthIsMonotone(Round(x * 100000.0), Round(y * 100000.0));
  }

  lemma RoundUpFixesTenths(k: int)
    ensures RoundUp1(Tenth(k)) == Tenth(k)
  {
    var x := Tenth(k) * 100000.0;
    assert x == (10000 * k) as real;
    assert x.Floor == 10000 * k;
    RoundIsNear(x);
    var j := UpToTenthIsLeast(10000 * k);
    LeastTenthIsUnique(j, k, 10000 * k);
  }

  // Cutting off gives the same, but one tenth less where a whole tenth is just exceeded and the
  // remainder would be rounded up.
  predicate CutOffLosesATenth(x: real) {
    (x * 100000.0).Floor % 10000 == 0 && Round(x * 100000.0) == (x * 100000.0).Floor + 1
  }

  lemma RoundingsDiffer(x: real)
    ensures TruncatingRoundUp1(x) == if CutOffLosesATenth(x) then RoundUp1(x) - 0.1 else RoundUp1(x)
  {
    var n, f := Round(x * 100000.0), (x * 100000.0).Floor;
    var j := UpToTenthIsLeast(n);
    var k := UpToTenthIsLeast(f);
    if CutOffLosesATenth(x) {
      LeastTenthIsUnique(k, f / 10000, f);
      LeastTenthIsUnique(j, f / 10000 + 1, n);
    } else if n != f {
      LeastTenthIsUnique(k, f / 10000 + 1, f);
      LeastTenthIsUnique(j, f / 10000 + 1, n);
    }
  }

  // A number they differ on, though no vector comes to it: five and six millionths.
  lemma RoundingsDifferHere()
    ensures RoundUp1(5.000006) == 5.1 && TruncatingRoundUp1(5.000006) == 5.0
  {
    assert 5.000006 * 100000.0 == 500000.6 && 500000.6.Floor == 500000;
  }

  // ---- base scores ----

  datatype Vector = Vector(av: AV, ac: AC, pr: PR, ui: UI, changed: bool, c: CIA, i: CIA, a: CIA)
  datatype AV = Network | Adjacent | Local | Physical
  datatype AC = LowComplexity | HighComplexity
  datatype PR = NoPrivilege | LowPrivilege | HighPrivilege
  datatype UI = NoInteraction | Required
  datatype CIA = High | Low | Nothing

  function Av(m: AV): real {
    match m case Network => 0.85 case Adjacent => 0.62 case Local => 0.55 case Physical => 0.2
  }

  function Ac(m: AC): real { match m case LowComplexity => 0.77 case HighComplexity => 0.44 }

  function Pr(m: PR, changed: bool): real {
    match m
    case NoPrivilege => 0.85
    case LowPrivilege => if changed then 0.68 else 0.62
    case HighPrivilege => if changed then 0.50 else 0.27
  }

  function Ui(m: UI): real { match m case NoInteraction => 0.85 case Required => 0.62 }

  function Cia(m: CIA): real { match m case High => 0.56 case Low => 0.22 case Nothing => 0.0 }

  function Pow(x: real, n: nat): real { if n == 0 then 1.0 else x * Pow(x, n - 1) }

  function Min(x: real, y: real): real { if x <= y then x else y }

  function Loss(c: real, i: real, a: real): real { 1.0 - (1.0 - c) * (1.0 - i) * (1.0 - a) }

  function Product(av: real, ac: real, pr: real, ui: real): real { 8.22 * av * ac * pr * ui }

  function Exploitability(av: AV, v: Vector): real { Product(Av(av), Ac(v.ac), Pr(v.pr, v.changed), Ui(v.ui)) }

  function Impact(v: Vector): real {
    var iss := Loss(Cia(v.c), Cia(v.i), Cia(v.a));
    if v.changed then 7.52 * (iss - 0.029) - 3.25 * Pow(iss - 0.02, 15) else 6.42 * iss
  }

  function Combined(impact: real, exploitability: real, changed: bool): real {
    Min(if changed then 1.08 * (impact + exploitability) else impact + exploitability, 10.0)
  }

  // The score of the enriched report, and that of the base-score module.
  function BaseScore(v: Vector): real {
    if Impact(v) <= 0.0 then 0.0 else RoundUp1(Combined(Impact(v), Exploitability(v.av, v), v.changed))
  }

  function ModuleScore(v: Vector): real {
    if Impact(v) <= 0.0 then 0.0 else TruncatingRoundUp1(Combined(Impact(v), Exploitability(v.av, v), v.changed))
  }

  lemma ProductIsMonotone(a: real, b: real, c: real, d: real)
    requires 0.0 <= a <= b && 0.0 <= c <= d
    ensures 0.0 <= a * c <= b * d
  {
  }

  lemma ExploitabilityIsPositive(av: AV, v: Vector)
    ensures 0.0 < Exploitability(av, v)
  {
    var x := 8.22 * Av(av) * Ac(v.ac);
    assert 0.0 < x;
  }

  lemma ScoreIsTenth(x: real) returns (k: int)
    requires 0.0 <= x <= 10.0
    ensures 0 <= k <= 100 && RoundUp1(x) == Tenth(k)
  {
    k := RoundUpIsLeastTenth(x);
    RoundUpFixesTenths(0);
    RoundUpFixesTenths(100);
    RoundUpIsMonotone(0.0, x);
    RoundUpIsMonotone(x, 10.0);
    assert Tenth(0) == 0.0 && Tenth(100) == 10.0;
  }

  // A base score is a number of tenths from 0 to 10.
  lemma BaseScoreInRange(v: Vector) returns (k: int)
    ensures 0 <= k <= 100 && BaseScore(v) == Tenth(k)
  {
    if Impact(v) <= 0.0 {
      k := 0;
    } else {
      ExploitabilityIsPositive(v.av, v);
      k := ScoreIsTenth(Combined(Impact(v), Exploitability(v.av, v), v.changed));
    }
  }

  // ---- no vector meets the difference ----

  // Above a tenth by at least a hundred-thousandth, or the greatest score.
  predicate Clear(x: real) {
    var y := x * 100000.0;
    x == 10.0 || y - 10000.0 * (y / 10000.0).Floor as real >= 1.0
  }

  lemma ClearLosesNothing(x: real)
    requires Clear(x)
    ensures !CutOffLosesATenth(x)
  {
    var y := x * 100000.0;
    var q := (y / 10000.0).Floor;
    if x != 10.0 {
      assert 10000.0 * q as real + 1.0 <= y < 10000.0 * q as real + 10000.0;
      var f := y.Floor;
      assert 10000 * q + 1 <= f < 10000 * q + 10000;
    }
  }

  // Clear, and so is whatever is greater by little.
  predicate Roomy(z: real) {
    var y := z * 100000.0;
    z >= 10.0 || 1.0 <= y - 10000.0 * (y / 10000.0).Floor as real <= 9999.8
  }

  lemma RoomyIsClear(z: real, x: real)
    requires Roomy(z) && z <= x <= z + 0.0000011
    ensures Clear(Min(x, 10.0))
  {
    var y := z * 100000.0;
    var q := (y / 10000.0).Floor;
    if z < 10.0 {
      assert 10000.0 * q as real + 1.0 <= x * 100000.0 < 10000.0 * q as real + 10000.0;
      assert (x * 100000.0 / 10000.0).Floor == q;
    }
  }

  // The losses there are, and the impacts under changed scope cut off after six decimals.
  const LOSSES := {0.914816, 0.848992, 0.8064, 0.732304, 0.6568, 0.56, 0.525448, 0.3916, 0.22}

  function ImpactFloor(iss: real): real {
    if iss == 0.914816 then 6.047730
    else if iss == 0.848992 then 5.971293
    else if iss == 0.8064 then 5.757630
    else if iss == 0.732304 then 5.268807
    else if iss == 0.6568 then 4.717324
    else if iss == 0.56 then 3.992805
    else if iss == 0.525448 then 3.733172
    else if iss == 0.3916 then 2.726750
    else 1.436319
  }

  lemma LossesAre(v: Vector)
    ensures Loss(Cia(v.c), Cia(v.i), Cia(v.a)) in LOSSES + {0.0}
  {
  }

  lemma {:induction false} PowAdds(x: real, m: nat, n: nat)
    ensures Pow(x, m + n) == Pow(x, m) * Pow(x, n)
  {
    if m > 0 { PowAdds(x, m - 1, n); }
  }

  lemma Pow3(x: real)
    ensures Pow(x, 3) == x * (x * x)
  {
    assert Pow(x, 1) == x * Pow(x, 0) == x;
    assert Pow(x, 2) == x * Pow(x, 1);
    assert Pow(x, 3) == x * Pow(x, 2);
  }

  lemma Pow15(x: real)
    ensures var y := x * (x * x); Pow(x, 15) == y * (y * (y * (y * y)))
  {
    Pow3(x);
    Fifth(x, x * (x * x));
  }

  lemma Fifth(x: real, y: real)
    requires y == Pow(x, 3)
    ensures Pow(x, 15) == y * (y * (y * (y * y)))
  {
    PowAdds(x, 3, 3);
    PowAdds(x, 3, 6);
    PowAdds(x, 3, 9);
    PowAdds(x, 3, 12);
  }

  lemma ImpactNearFloor(iss: real)
    requires iss in LOSSES
    ensures ImpactFloor(iss) <= 7.52 * (iss - 0.029) - 3.25 * Pow(iss - 0.02, 15) <= ImpactFloor(iss) + 0.000001
  {
    Pow15(iss - 0.02);
  }

  // The metrics that make up the exploitability, case by case.
  lemma Accesses(v: Vector)
    ensures v.av in {Network, Adjacent, Local, Physical} && v.ac in {LowComplexity, HighComplexity}
    ensures v.pr in {NoPrivilege, LowPrivilege, HighPrivilege} && v.ui in {NoInteraction, Required}
  {
    match v.av { case Network => case Adjacent => case Local => case Physical => }
    match v.ac { case LowComplexity => case HighComplexity => }
    match v.pr { case NoPrivilege => case LowPrivilege => case HighPrivilege => }
    match v.ui { case NoInteraction => case Required => }
  }

  lemma ChangedRoomA(v: Vector, iss: real)
    requires v.changed && iss in {0.914816, 0.848992, 0.8064}
    ensures Roomy(1.08 * (ImpactFloor(iss) + Exploitability(v.av, v)))
  {
    Accesses(v);
  }

  lemma ChangedRoomB(v: Vector, iss: real)
    requires v.changed && iss in {0.732304, 0.6568, 0.56}
    ensures Roomy(1.08 * (ImpactFloor(iss) + Exploitability(v.av, v)))
  {
    Accesses(v);
  }

  lemma ChangedRoomC(v: Vector, iss: real)
    requires v.changed && iss in {0.525448, 0.3916, 0.22}
    ensures Roomy(1.08 * (ImpactFloor(iss) + Exploitability(v.av, v)))
  {
    Accesses(v);
  }

  lemma UnchangedClearA(v: Vector, iss: real)
    requires !v.changed && iss in {0.914816, 0.848992, 0.8064, 0.732304}
    ensures Clear(Combined(6.42 * iss, Exploitability(v.av, v), false))
  {
    Accesses(v);
  }

  lemma UnchangedClearB(v: Vector, iss: real)
    requires !v.changed && iss in {0.6568, 0.56, 0.525448, 0.3916, 0.22}
    ensures Clear(Combined(6.42 * iss, Exploitability(v.av, v), false))
  {
    Accesses(v);
  }

  lemma NoLossNoImpact(v: Vector)
    requires Loss(Cia(v.c), Cia(v.i), Cia(v.a)) == 0.0
    ensures Impact(v) <= 0.0
  {
    Pow15(-0.02);
  }

  lemma EveryScoreIsClear(v: Vector, iss: real)
    requires iss == Loss(Cia(v.c), Cia(v.i), Cia(v.a)) && Impact(v) > 0.0
    ensures Clear(Combined(Impact(v), Exploitability(v.av, v), v.changed))
  {
    LossesAre(v);
    if iss == 0.0 { NoLossNoImpact(v); }
    var e := Exploitability(v.av, v);
    if v.changed {
      ImpactNearFloor(iss);
      if iss in {0.914816, 0.848992, 0.8064} { ChangedRoomA(v, iss); }
      else if iss in {0.732304, 0.6568, 0.56} { ChangedRoomB(v, iss); }
      else { ChangedRoomC(v, iss); }
      RoomyIsClear(1.08 * (ImpactFloor(iss) + e), 1.08 * (Impact(v) + e));
    } else {
      if iss in {0.914816, 0.848992, 0.8064, 0.732304} { UnchangedClearA(v, iss); } else { UnchangedClearB(v, iss); }
    }
  }

  // The two modules give every vector the same score.
  lemma ModulesAgree(v: Vector)
    ensures ModuleScore(v) == BaseScore(v)
  {
    if Impact(v) > 0.0 {
      var x := Combined(Impact(v), Exploitability(v.av, v), v.changed);
      EveryScoreIsClear(v, Loss(Cia(v.c), Cia(v.i), Cia(v.a)));
      ClearLosesNothing(x);
      RoundingsDiffer(x);
    }
  }

  // ---- how bad ----

  predicate NoWorse(v: Vector, w: Vector) {
    && v.changed == w.changed
    && Av(v.av) <= Av(w.av) && Ac(v.ac) <= Ac(w.ac) && Ui(v.ui) <= Ui(w.ui)
    && Pr(v.pr, v.changed) <= Pr(w.pr, w.changed)
    && Cia(v.c) <= Cia(w.c) && Cia(v.i) <= Cia(w.i) && Cia(v.a) <= Cia(w.a)
  }

  lemma LossIsMonotone(c: real, i: real, a: real, c2: real, i2: real, a2: real)
    requires c <= c2 <= 1.0 && i <= i2 <= 1.0 && a <= a2 <= 1.0
    ensures Loss(c, i, a) <= Loss(c2, i2, a2) <= 1.0
  {
    ProductIsMonotone(1.0 - c2, 1.0 - c, 1.0 - i2, 1.0 - i);
    ProductIsMonotone((1.0 - c2) * (1.0 - i2), (1.0 - c) * (1.0 - i), 1.0 - a2, 1.0 - a);
  }

  lemma ExploitabilityIsMonotone(av: AV, v: Vector, av2: AV, w: Vector)
    requires Av(av) <= Av(av2) && NoWorse(v, w)
    ensures Exploitability(av, v) <= Exploitability(av2, w)
  {
    FourIsMonotone(Av(av), Ac(v.ac), Pr(v.pr, v.changed), Ui(v.ui), Av(av2), Ac(w.ac), Pr(w.pr, w.changed), Ui(w.ui));
  }

  lemma FourIsMonotone(
      a: real, b: real, c: real, d: real, a2: real, b2: real, c2: real, d2: real)
    requires 0.0 <= a <= a2 && 0.0 <= b <= b2 && 0.0 <= c <= c2 && 0.0 <= d <= d2
    ensures Product(a, b, c, d) <= Product(a2, b2, c2, d2)
  {
    ProductIsMonotone(8.22 * a, 8.22 * a2, b, b2);
    ProductIsMonotone(8.22 * a * b, 8.22 * a2 * b2, c, c2);
    ProductIsMonotone(8.22 * a * b * c, 8.22 * a2 * b2 * c2, d, d2);
  }

  // With unchanged scope a vector that is no better in any metric scores no less.
  lemma BaseScoreIsMonotone(v: Vector, w: Vector)
    requires NoWorse(v, w) && !v.changed
    ensures BaseScore(v) <= BaseScore(w)
  {
    LossIsMonotone(Cia(v.c), Cia(v.i), Cia(v.a), Cia(w.c), Cia(w.i), Cia(w.a));
    ExploitabilityIsMonotone(v.av, v, w.av, w);
    if Impact(v) > 0.0 {
      RoundUpIsMonotone(Combined(Impact(v), Exploitability(v.av, v), false),
          Combined(Impact(w), Exploitability(w.av, w), false));
    } else {
      var _ := BaseScoreInRange(w);
    }
  }

  // ---- environmental scores ----

  datatype App = App(external: bool, pci: bool, pan: bool, pii: bool)

  function ConfidentialityReq(app: App): real { if app.pci || app.pan || app.pii then 1.5 else 1.0 }

  function IntegrityReq(app: App): real { if app.pci || app.pan then 1.5 else 1.0 }

  function ModifiedAv(app: App, av: AV): AV { if !app.external && av == Network then Adjacent else av }

  // Proof of concept, official fix, confirmed.
  function Discounted(base: real): real { base * 0.94 * 0.95 * 1.0 }

  function ModifiedLoss(app: App, v: Vector): real {
    Min(Loss(ConfidentialityReq(app) * Cia(v.c), IntegrityReq(app) * Cia(v.i), Cia(v.a)), 0.915)
  }

  function ModifiedImpact(app: App, v: Vector): real {
    var miss := ModifiedLoss(app, v);
    if v.changed then 7.52 * (miss - 0.029) - 3.25 * Pow(miss * 0.9731 - 0.02, 13) else 6.42 * miss
  }

  function ModifiedBase(app: App, v: Vector): real {
    if ModifiedImpact(app, v) <= 0.0 then 0.0
    else RoundUp1(Combined(ModifiedImpact(app, v), Exploitability(ModifiedAv(app, v.av), v), v.changed))
  }

  function Environmental(app: App, v: Vector): real {
    if ModifiedImpact(app, v) <= 0.0 then 0.0 else RoundUp1(Discounted(ModifiedBase(app, v)))
  }

  function Rating(s: real): string {
    if s >= 9.0 then "Critical" else if s >= 7.0 then "High" else if s >= 4.0 then "Medium"
    else if s >= 0.1 then "Low" else "None"
  }

  lemma ModifiedBaseInRange(app: App, v: Vector) returns (k: int)
    ensures 0 <= k <= 100 && ModifiedBase(app, v) == Tenth(k)
  {
    if ModifiedImpact(app, v) <= 0.0 {
      k := 0;
    } else {
      ExploitabilityIsPositive(ModifiedAv(app, v.av), v);
      k := ScoreIsTenth(Combined(ModifiedImpact(app, v), Exploitability(ModifiedAv(app, v.av), v), v.changed));
    }
  }

  lemma DiscountedIs(x: real)
    requires 0.0 <= x <= 10.0
    ensures 0.0 <= Discounted(x) == 0.893 * x <= x
  {
  }

  lemma DiscountedTenth(k: int)
    requires 0 <= k <= 100
    ensures 0.0 <= RoundUp1(Discounted(Tenth(k))) <= Tenth(k)
    ensures k < 100 ==> RoundUp1(Discounted(Tenth(k))) <= 8.9
    ensures k == 100 ==> RoundUp1(Discounted(Tenth(k))) == 9.0
  {
    var x := Discounted(Tenth(k));
    DiscountedIs(Tenth(k));
    RoundUpFixesTenths(0);
    RoundUpFixesTenths(k);
    RoundUpIsMonotone(Tenth(0), x);
    RoundUpIsMonotone(x, Tenth(k));
    if k < 100 {
      RoundUpFixesTenths(89);
      RoundUpIsMonotone(x, Tenth(89));
    } else {
      RoundUpFixesTenths(90);
      RoundUpIsMonotone(x, Tenth(90));
      var j := RoundUpIsLeastTenth(x);
      assert x == 8.93;
      assert Tenth(j) > 8.9;
    }
  }

  // The environmental score never exceeds the modified base score, nor 9.0, which only a modified
  // base score of 10.0 gives: nothing less is rated critical.
  lemma EnvironmentalIsBounded(app: App, v: Vector)
    ensures 0.0 <= Environmental(app, v) <= ModifiedBase(app, v) && Environmental(app, v) <= 9.0
    ensures Environmental(app, v) >= 9.0 <==> ModifiedBase(app, v) == 10.0
  {
    var k := ModifiedBaseInRange(app, v);
    DiscountedTenth(k);
  }

  lemma OnlyTheWorstIsCritical(app: App, v: Vector)
    ensures Rating(Environmental(app, v)) == "Critical" <==> ModifiedBase(app, v) == 10.0
  {
    EnvironmentalIsBounded(app, v);
    var s := Environmental(app, v);
    if s < 9.0 { assert Rating(s)[0] != 'C'; }
  }

  // With unchanged scope, taking an application off the network never raises the score, nor does
  // handling less sensitive data.
  lemma EnvironmentalIsMonotone(app: App, safer: App, v: Vector)
    requires !v.changed
    requires (safer.external ==> app.external) && (safer.pci ==> app.pci) && (safer.pan ==> app.pan)
        && (safer.pii ==> app.pii)
    ensures Environmental(safer, v) <= Environmental(app, v)
  {
    var c, c2 := ConfidentialityReq(safer) * Cia(v.c), ConfidentialityReq(app) * Cia(v.c);
    var i, i2 := IntegrityReq(safer) * Cia(v.i), IntegrityReq(app) * Cia(v.i);
    assert c <= c2 <= 1.0 && i <= i2 <= 1.0;
    LossIsMonotone(c, i, Cia(v.a), c2, i2, Cia(v.a));
    ExploitabilityIsMonotone(ModifiedAv(safer, v.av), v, ModifiedAv(app, v.av), v);
    ModifiedFollows(app, safer, v);
  }

  lemma ModifiedFollows(app: App, safer: App, v: Vector)
    requires !v.changed && ModifiedLoss(safer, v) <= ModifiedLoss(app, v)
    requires Exploitability(ModifiedAv(safer, v.av), v) <= Exploitability(ModifiedAv(app, v.av), v)
    ensures Environmental(safer, v) <= Environmental(app, v)
  {
    EnvironmentalIsBounded(app, v);
    if ModifiedImpact(safer, v) > 0.0 {
      ModifiedBaseFollows(app, safer, v);
      var j := ModifiedBaseInRange(safer, v);
      var k := ModifiedBaseInRange(app, v);
      DiscountedIs(Tenth(j));
      DiscountedIs(Tenth(k));
      RoundUpIsMonotone(Discounted(Tenth(j)), Discounted(Tenth(k)));
    }
  }

  lemma ModifiedBaseFollows(app: App, safer: App, v: Vector)
    requires !v.changed && ModifiedLoss(safer, v) <= ModifiedLoss(app, v) && ModifiedImpact(safer, v) > 0.0
    requires Exploitability(ModifiedAv(safer, v.av), v) <= Exploitability(ModifiedAv(app, v.av), v)
    ensures ModifiedBase(safer, v) <= ModifiedBase(app, v) && ModifiedImpact(app, v) > 0.0
  {
    RoundUpIsMonotone(Combined(ModifiedImpact(safer, v), Exploitability(ModifiedAv(safer, v.av), v), false),
                      Combined(ModifiedImpact(app, v), Exploitability(ModifiedAv(app, v.av), v), false));
  }
}
