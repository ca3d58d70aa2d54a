// Scores that are known: each metric of a vector, and each fact of an application, makes the
// difference that CVSS 3.1 gives it.

module KnownScores {
  import opened Cvss

  lemma ScoreBetween(x: real, k: int)
    requires Tenth(k) - 0.09999 < x <= Tenth(k)
    ensures RoundUp1(x) == Tenth(k)
  {
    RoundUpFixesTenths(k);
    RoundUpIsMonotone(x, Tenth(k));
    var j := RoundUpIsLeastTenth(x);
    OneTenth(j, k);
  }

  lemma OneTenth(j: int, k: int)
    requires Tenth(k) - 0.1 < Tenth(j) <= Tenth(k)
    ensures j == k
  {
    assert j as real <= k as real;
    assert j as real > k as real - 1.0;
  }

  const WORST := Vector(Network, LowComplexity, NoPrivilege, NoInteraction, false, High, High, High)
  const SLIGHT := WORST.(c := Low, i := Nothing, a := Nothing)

  lemma ExploitabilityMatters()
    ensures BaseScore(WORST) == 9.8
    ensures BaseScore(WORST.(av := Adjacent)) == 8.8
    ensures BaseScore(WORST.(av := Local)) == 8.4
    ensures BaseScore(WORST.(av := Physical)) == 6.8
    ensures BaseScore(WORST.(ac := HighComplexity)) == 8.1
    ensures BaseScore(WORST.(pr := LowPrivilege)) == 8.8
    ensures BaseScore(WORST.(pr := HighPrivilege)) == 7.2
    ensures BaseScore(WORST.(ui := Required)) == 8.8
  {
    Unchanged(WORST, 98);
    Unchanged(WORST.(av := Adjacent), 88);
    Unchanged(WORST.(av := Local), 84);
    Unchanged(WORST.(av := Physical), 68);
    Unchanged(WORST.(ac := HighComplexity), 81);
    Unchanged(WORST.(pr := LowPrivilege), 88);
    Unchanged(WORST.(pr := HighPrivilege), 72);
    Unchanged(WORST.(ui := Required), 88);
  }

  lemma Unchanged(v: Vector, k: int)
    requires !v.changed && Impact(v) > 0.0
    requires Tenth(k) - 0.09999 < Impact(v) + Exploitability(v.av, v) <= Tenth(k) <= 10.0
    ensures BaseScore(v) == Tenth(k)
  {
    ScoreBetween(Impact(v) + Exploitability(v.av, v), k);
  }

  lemma ImpactMatters()
    ensures BaseScore(WORST.(a := Nothing)) == 9.1
    ensures BaseScore(WORST.(i := Nothing, a := Nothing)) == 7.5
    ensures BaseScore(WORST.(c := Nothing, a := Nothing)) == 7.5
    ensures BaseScore(WORST.(c := Nothing, i := Nothing)) == 7.5
    ensures BaseScore(WORST.(c := Low, i := Nothing, a := Nothing)) == 5.3
    ensures BaseScore(WORST.(c := Nothing, i := Low, a := Nothing)) == 5.3
    ensures BaseScore(WORST.(c := Nothing, i := Nothing, a := Low)) == 5.3
    ensures BaseScore(WORST.(c := Nothing, i := Nothing, a := Nothing)) == 0.0
  {
    Unchanged(WORST.(a := Nothing), 91);
    Unchanged(WORST.(i := Nothing, a := Nothing), 75);
    Unchanged(WORST.(c := Nothing, a := Nothing), 75);
    Unchanged(WORST.(c := Nothing, i := Nothing), 75);
    Unchanged(WORST.(c := Low, i := Nothing, a := Nothing), 53);
    Unchanged(WORST.(c := Nothing, i := Low, a := Nothing), 53);
    Unchanged(WORST.(c := Nothing, i := Nothing, a := Low), 53);
  }

  // ---- a changed scope ----

  lemma Changed(v: Vector, iss: real, k: int)
    requires v.changed && iss in LOSSES && iss == Loss(Cia(v.c), Cia(v.i), Cia(v.a))
    requires ImpactFloor(iss) > 0.0
    requires Tenth(k) - 0.09999 < 1.08 * (ImpactFloor(iss) + Exploitability(v.av, v))
    requires 1.08 * (ImpactFloor(iss) + 0.000001 + Exploitability(v.av, v)) <= Tenth(k) <= 10.0
    ensures BaseScore(v) == Tenth(k)
  {
    ImpactNearFloor(iss);
    ScoreBetween(1.08 * (Impact(v) + Exploitability(v.av, v)), k);
  }

  lemma ScopeMatters()
    ensures BaseScore(SLIGHT.(changed := true)) == 5.8
    ensures BaseScore(SLIGHT.(changed := true, pr := LowPrivilege)) == 5.0
    ensures BaseScore(SLIGHT.(changed := true, pr := HighPrivilege)) == 4.1
    ensures BaseScore(SLIGHT.(changed := true, i := Low)) == 7.2
    ensures BaseScore(SLIGHT.(changed := true, i := Low, ui := Required)) == 6.1
    ensures BaseScore(WORST.(changed := true)) == 10.0
  {
    Changed(SLIGHT.(changed := true), 0.22, 58);
    Changed(SLIGHT.(changed := true, pr := LowPrivilege), 0.22, 50);
    Changed(SLIGHT.(changed := true, pr := HighPrivilege), 0.22, 41);
    Changed(SLIGHT.(changed := true, i := Low), 0.3916, 72);
    Changed(SLIGHT.(changed := true, i := Low, ui := Required), 0.3916, 61);
    ImpactNearFloor(0.914816);
    assert ImpactFloor(0.914816) > 6.0;
    ScoreBetween(10.0, 100);
  }

  // ---- the application ----

  const PLAIN := App(true, false, false, false)
  const CONF := WORST.(i := Nothing, a := Nothing)
  const INTEG := WORST.(c := Nothing, a := Nothing)
  const AVAIL := WORST.(c := Nothing, i := Nothing)

  lemma EnvironmentalBy(app: App, v: Vector, m: int, k: int)
    requires !v.changed && 0.0 < ModifiedLoss(app, v)
    requires var raw := 6.42 * ModifiedLoss(app, v) + Exploitability(ModifiedAv(app, v.av), v);
      Tenth(m) - 0.09999 < raw <= Tenth(m) <= 10.0
    requires Tenth(k) - 0.09999 < 0.893 * Tenth(m) <= Tenth(k)
    ensures Environmental(app, v) == Tenth(k)
  {
    ScoreBetween(6.42 * ModifiedLoss(app, v) + Exploitability(ModifiedAv(app, v.av), v), m);
    DiscountedIs(Tenth(m));
    ScoreBetween(0.893 * Tenth(m), k);
  }

  // What the application is makes the difference: whether it faces outwards, and which data it handles.
  lemma ApplicationMatters()
    ensures Environmental(PLAIN, CONF) == 6.7 == Environmental(PLAIN, INTEG) == Environmental(PLAIN, AVAIL)
    ensures Environmental(PLAIN.(external := false), CONF) == 5.9
    ensures Environmental(PLAIN.(external := false), CONF.(av := Local)) == 5.6
    ensures Environmental(PLAIN.(pii := true), CONF) == 8.4 && Environmental(PLAIN.(pii := true), INTEG) == 6.7
  {
    EnvironmentalBy(PLAIN, CONF, 75, 67);
    EnvironmentalBy(PLAIN, INTEG, 75, 67);
    EnvironmentalBy(PLAIN, AVAIL, 75, 67);
    EnvironmentalBy(PLAIN.(external := false), CONF, 65, 59);
    EnvironmentalBy(PLAIN.(external := false), CONF.(av := Local), 62, 56);
    EnvironmentalBy(PLAIN.(pii := true), CONF, 93, 84);
    EnvironmentalBy(PLAIN.(pii := true), INTEG, 75, 67);
  }

  lemma CardholderScopeMatters()
    ensures Environmental(PLAIN.(pci := true), CONF) == 8.4 == Environmental(PLAIN.(pci := true), INTEG)
    ensures Environmental(PLAIN.(pci := true), AVAIL) == 6.7
  {
    EnvironmentalBy(PLAIN.(pci := true), CONF, 93, 84);
    EnvironmentalBy(PLAIN.(pci := true), INTEG, 93, 84);
    EnvironmentalBy(PLAIN.(pci := true), AVAIL, 75, 67);
  }

  lemma AccountNumbersMatter()
    ensures Environmental(PLAIN.(pan := true), CONF) == 8.4 == Environmental(PLAIN.(pan := true), INTEG)
    ensures Environmental(PLAIN.(pan := true), AVAIL) == 6.7
  {
    EnvironmentalBy(PLAIN.(pan := true), CONF, 93, 84);
    EnvironmentalBy(PLAIN.(pan := true), INTEG, 93, 84);
    EnvironmentalBy(PLAIN.(pan := true), AVAIL, 75, 67);
  }

  lemma {:induction false} PowIsSmall(x: real, n: nat)
    requires 0.0 <= x <= 1.0
    ensures 0.0 <= Pow(x, n) <= 1.0
  {
    if n > 0 {
      PowIsSmall(x, n - 1);
      Small(x, Pow(x, n - 1));
    }
  }

  // A changed scope, over an application that faces outwards and one that does not.
  lemma ModifiedScopeMatters()
    ensures Environmental(PLAIN, SLIGHT.(changed := true)) == 5.2
    ensures Environmental(PLAIN.(external := false), SLIGHT.(changed := true)) == 4.2
  {
    var x := 0.22 * 0.9731 - 0.02;
    var y, z := Pow(x, 3), Pow(x, 7);
    Pow3(x);
    assert 0.0 <= y <= 0.0074;
    PowIsSmall(x, 7);
    PowAdds(x, 3, 10);
    PowAdds(x, 3, 7);
    ProductIsMonotone(y, 0.0074, z, 1.0);
    ProductIsMonotone(y, 0.0074, y * z, 0.0074);
    ModifiedBy(PLAIN, 58, 52);
    ModifiedBy(PLAIN.(external := false), 47, 42);
  }

  lemma PowNearCap()
    ensures 0.164 <= Pow(0.8703865, 13) <= 0.165
  {
    var x := 0.8703865;
    Pow3(x);
    PowAdds(x, 3, 3);
    PowAdds(x, 6, 6);
    PowAdds(x, 12, 1);
    assert Pow(x, 1) == x * Pow(x, 0) == x;
  }

  // The modified loss is cut at 0.915, whatever the scope.
  lemma LossIsCapped()
    ensures Environmental(PLAIN.(pci := true), WORST) == 8.8
    ensures Environmental(PLAIN.(pci := true), WORST.(changed := true, ui := Required)) == 8.7
  {
    EnvironmentalBy(PLAIN.(pci := true), WORST, 98, 88);
    var app, v := PLAIN.(pci := true), WORST.(changed := true, ui := Required);
    assert ModifiedLoss(app, v) == 0.915;
    PowNearCap();
    assert 0.915 * 0.9731 - 0.02 == 0.8703865;
    ScoreBetween(1.08 * (ModifiedImpact(app, v) + Exploitability(ModifiedAv(app, v.av), v)), 97);
    DiscountedIs(9.7);
    ScoreBetween(0.893 * 9.7, 87);
  }

  lemma Small(a: real, b: real)
    requires 0.0 <= a <= 1.0 && 0.0 <= b
    ensures 0.0 <= a * b <= b
  {
  }

  lemma ModifiedBy(app: App, m: int, k: int)
    requires app in {PLAIN, PLAIN.(external := false)}
    requires 0.0 <= Pow(0.22 * 0.9731 - 0.02, 13) <= 0.0001
    requires var v := SLIGHT.(changed := true);
      var raw := 7.52 * (0.22 - 0.029) + Exploitability(ModifiedAv(app, v.av), v);
      Tenth(m) - 0.09899 < 1.08 * raw <= Tenth(m) <= 10.0
    requires Tenth(k) - 0.09999 < 0.893 * Tenth(m) <= Tenth(k)
    ensures Environmental(app, SLIGHT.(changed := true)) == Tenth(k)
  {
    var v := SLIGHT.(changed := true);
    assert ModifiedLoss(app, v) == 0.22;
    ScoreBetween(1.08 * (ModifiedImpact(app, v) + Exploitability(ModifiedAv(app, v.av), v)), m);
    DiscountedIs(Tenth(m));
    ScoreBetween(0.893 * Tenth(m), k);
  }

  lemma RatingsAtTheBounds()
    ensures Rating(0.0) == "None" && Rating(0.1) == "Low" && Rating(3.9) == "Low" && Rating(4.0) == "Medium"
    ensures Rating(6.9) == "Medium" && Rating(7.0) == "High" && Rating(8.9) == "High" && Rating(9.0) == "Critical"
  {
  }
}
