/**
 * The NPK fertilizer calculator: the nitrogen, phosphorus and potassium a
 * field still needs for a target yield, given what the soil already holds,
 * and the quantities of urea, DAP and MOP that supply it; exact real
 * arithmetic throughout.
 */
module Fertilizer {

  /** Kilograms of nitrogen, phosphorus and potassium. */
  datatype Nutrients = Nutrients(n: real, p: real, k: real)

  /** The per-quintal requirement used for crops without an entry of their own. */
  const DefaultRequirement := Nutrients(2.5, 0.6, 2.0)

  /** Nutrient needed per quintal of yield: Rice and Wheat have their own rows. */
  function Requirement(crop: string): (c: Nutrients)
    ensures crop == "Rice" ==> c == Nutrients(2.5, 0.6, 2.5)
    ensures crop == "Wheat" ==> c == Nutrients(3.0, 0.6, 2.0)
    ensures crop != "Rice" && crop != "Wheat" ==> c == DefaultRequirement
  {
    var table := map["Rice" := Nutrients(2.5, 0.6, 2.5), "Wheat" := Nutrients(3.0, 0.6, 2.0)];
    if crop in table then table[crop] else DefaultRequirement
  }

  /**
   * The deficit of one nutrient: what the target yield takes from the
   * field, less what the soil supplies, and never below zero.
   */
  function Deficit(target: real, coefficient: real, area: real, soilLevel: real): (need: real)
    ensures need >= 0.0
    ensures soilLevel * area + need >= target * coefficient * area
    ensures need == 0.0 <==> soilLevel * area >= target * coefficient * area
  {
    var shortfall := target * coefficient * area - soilLevel * area;
    if shortfall > 0.0 then shortfall else 0.0
  }

  /**
   * The deficit is the least top-up that meets the requirement: any
   * non-negative amount that, with the soil's supply, covers it is at least
   * the deficit.
   */
  lemma DeficitIsLeastTopUp(target: real, coefficient: real, area: real, soilLevel: real, topUp: real)
    requires topUp >= 0.0 && soilLevel * area + topUp >= target * coefficient * area
    ensures Deficit(target, coefficient, area, soilLevel) <= topUp
  {
  }

  lemma MulLeftMonotone(c: real, u: real, v: real)
    requires c > 0.0
    ensures u * c >= v * c <==> u >= v
  {
    if u < v {
      assert u * c < v * c;
    }
  }

  /** On a field of positive area nothing is needed exactly when the soil level reaches target times coefficient. */
  lemma NothingNeededIffSoilSuffices(target: real, coefficient: real, area: real, soilLevel: real)
    requires area > 0.0
    ensures Deficit(target, coefficient, area, soilLevel) == 0.0 <==> soilLevel >= target * coefficient
  {
    MulLeftMonotone(area, soilLevel, target * coefficient);
  }

  /** Nutrient content of the products: urea and DAP are counted at 46%, MOP at 60%. */
  const UreaNitrogen := 0.46
  const DapPhosphorus := 0.46
  const MopPotassium := 0.60

  /** Kilograms of a product whose nutrient content is the given fraction that supply the needed nutrient. */
  function ProductKg(nutrientKg: real, content: real): (kg: real)
    requires content > 0.0
    ensures kg * content == nutrientKg
    ensures nutrientKg >= 0.0 ==> kg >= 0.0
  {
    nutrientKg / content
  }

  datatype Plan = Plan(need: Nutrients, urea: real, dap: real, mop: real)

  /** The figures the calculator shows for a crop, field and soil test. */
  function ComputePlan(crop: string, area: real, target: real, soilN: real, soilP: real, soilK: real): (plan: Plan)
    ensures plan.need == Nutrients(
      Deficit(target, Requirement(crop).n, area, soilN),
      Deficit(target, Requirement(crop).p, area, soilP),
      Deficit(target, Requirement(crop).k, area, soilK))
    ensures plan.need.n >= 0.0 && plan.need.p >= 0.0 && plan.need.k >= 0.0
    ensures plan.urea >= 0.0 && plan.dap >= 0.0 && plan.mop >= 0.0
    ensures plan.urea * UreaNitrogen == plan.need.n
    ensures plan.dap * DapPhosphorus == plan.need.p
    ensures plan.mop * MopPotassium == plan.need.k
  {
    var c := Requirement(crop);
    var need := Nutrients(
      Deficit(target, c.n, area, soilN),
      Deficit(target, c.p, area, soilP),
      Deficit(target, c.k, area, soilK));
    Plan(need, ProductKg(need.n, UreaNitrogen), ProductKg(need.p, DapPhosphorus), ProductKg(need.k, MopPotassium))
  }

  /** Rice and Wheat are computed with their own rows of the requirement table. */
  lemma RiceAndWheatUseOwnRows(area: real, target: real, soilN: real, soilP: real, soilK: real)
    ensures ComputePlan("Rice", area, target, soilN, soilP, soilK).need ==
      Nutrients(Deficit(target, 2.5, area, soilN), Deficit(target, 0.6, area, soilP), Deficit(target, 2.5, area, soilK))
    ensures ComputePlan("Wheat", area, target, soilN, soilP, soilK).need ==
      Nutrients(Deficit(target, 3.0, area, soilN), Deficit(target, 0.6, area, soilP), Deficit(target, 2.0, area, soilK))
  {
  }

  /** Crops other than Rice and Wheat are computed with the default requirement. */
  lemma OtherCropsUseDefault(crop: string, area: real, target: real, soilN: real, soilP: real, soilK: real)
    requires crop != "Rice" && crop != "Wheat"
    ensures ComputePlan(crop, area, target, soilN, soilP, soilK).need ==
      Nutrients(Deficit(target, 2.5, area, soilN), Deficit(target, 0.6, area, soilP), Deficit(target, 2.0, area, soilK))
  {
  }
}
