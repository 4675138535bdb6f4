/**
 * Crop recommendation: the soil's ordered candidate list is narrowed by a
 * temperature band and then by the season, falls back to the first five
 * soil crops when nothing survives, and is cut to five entries. Every stage
 * keeps the original order.
 */
module Crops {
  import opened Text

  /** a can be obtained from b by deleting entries, keeping the order of the rest. */
  ghost predicate IsSubsequence<T>(a: seq<T>, b: seq<T>)
    decreases |b|
  {
    a == [] ||
    (b != [] &&
     ((a[0] == b[0] && IsSubsequence(a[1..], b[1..])) || IsSubsequence(a, b[1..])))
  }

  /** No name is listed twice. */
  ghost predicate NoDuplicates<T>(s: seq<T>)
  {
    forall i, j :: 0 <= i < j < |s| ==> s[i] != s[j]
  }

  lemma {:induction false} SubsequenceReflexive<T>(s: seq<T>)
    ensures IsSubsequence(s, s)
  {
    if s != [] {
      SubsequenceReflexive(s[1..]);
    }
  }

  lemma {:induction false} SubsequenceTransitive<T>(a: seq<T>, b: seq<T>, c: seq<T>)
    requires IsSubsequence(a, b) && IsSubsequence(b, c)
    ensures IsSubsequence(a, c)
    decreases |c|
  {
    if a == [] {
    } else if IsSubsequence(b, c[1..]) {
      SubsequenceTransitive(a, b, c[1..]);
    } else if a[0] == b[0] && IsSubsequence(a[1..], b[1..]) {
      SubsequenceTransitive(a[1..], b[1..], c[1..]);
    } else {
      SubsequenceTransitive(a, b[1..], c[1..]);
    }
  }

  lemma {:induction false} SubsequenceMembers<T>(a: seq<T>, b: seq<T>)
    requires IsSubsequence(a, b)
    ensures forall x :: x in a ==> x in b
    decreases |b|
  {
    if a != [] {
      if a[0] == b[0] && IsSubsequence(a[1..], b[1..]) {
        SubsequenceMembers(a[1..], b[1..]);
        assert forall x :: x in a ==> x == a[0] || x in a[1..];
      } else {
        SubsequenceMembers(a, b[1..]);
      }
    }
  }

  lemma {:induction false} SubsequenceNoDuplicates<T>(a: seq<T>, b: seq<T>)
    requires IsSubsequence(a, b) && NoDuplicates(b)
    ensures NoDuplicates(a)
    decreases |b|
  {
    if a != [] {
      assert NoDuplicates(b[1..]);
      if a[0] == b[0] && IsSubsequence(a[1..], b[1..]) {
        SubsequenceNoDuplicates(a[1..], b[1..]);
        SubsequenceMembers(a[1..], b[1..]);
        assert b[0] !in b[1..];
        forall i, j | 0 <= i < j < |a| ensures a[i] != a[j] {
          if i == 0 {
            assert a[j] == a[1..][j - 1];
          } else {
            assert a[i] == a[1..][i - 1] && a[j] == a[1..][j - 1];
          }
        }
      } else {
        SubsequenceNoDuplicates(a, b[1..]);
      }
    }
  }

  lemma {:induction false} PrefixIsSubsequence<T>(s: seq<T>, n: nat)
    requires n <= |s|
    ensures IsSubsequence(s[..n], s)
  {
    if n > 0 {
      PrefixIsSubsequence(s[1..], n - 1);
      assert s[..n][1..] == s[1..][..n - 1];
    }
  }

  /** Python's slice `s[:n]`: the first n entries, or all of s when it is shorter. */
  function Take<T>(s: seq<T>, n: nat): (r: seq<T>)
    ensures |r| <= n && |r| <= |s|
    ensures |r| == if |s| <= n then |s| else n
    ensures forall i :: 0 <= i < |r| ==> r[i] == s[i]
    ensures IsSubsequence(r, s)
    ensures |s| > 0 && n > 0 ==> r != []
  {
    PrefixIsSubsequence(s, if |s| <= n then |s| else n);
    assert s[..|s|] == s;
    if |s| <= n then s else s[..n]
  }

  /** The list comprehension `[c for c in crops if c in keep]`. */
  function Filter(crops: seq<string>, keep: seq<string>): (r: seq<string>)
    ensures IsSubsequence(r, crops)
    ensures forall c :: c in r <==> c in crops && c in keep
  {
    if crops == [] then []
    else
      var rest := Filter(crops[1..], keep);
      assert forall c :: c in crops ==> c == crops[0] || c in crops[1..];
      if crops[0] in keep then
        assert ([crops[0]] + rest)[1..] == rest;
        [crops[0]] + rest
      else
        rest
  }

  /**
   * The comprehension keeps every copy: each allowed name occurs in the
   * result exactly as often as in the input, and no other name occurs.
   */
  lemma {:induction false} FilterKeepsEveryCopy(crops: seq<string>, keep: seq<string>)
    ensures forall c :: multiset(Filter(crops, keep))[c] == if c in keep then multiset(crops)[c] else 0
  {
    if crops != [] {
      FilterKeepsEveryCopy(crops[1..], keep);
      assert crops == [crops[0]] + crops[1..];
      assert multiset(crops) == multiset([crops[0]]) + multiset(crops[1..]);
      if crops[0] in keep {
        var rest := Filter(crops[1..], keep);
        assert multiset([crops[0]] + rest) == multiset([crops[0]]) + multiset(rest);
      }
    }
  }

  /** The soil table, in the order the source lists each soil's crops. */
  const SoilCrops: map<string, seq<string>> := map[
    "Loamy" := ["Wheat", "Rice", "Sugarcane", "Cotton", "Vegetables", "Fruits"],
    "Clayey" := ["Paddy", "Soybean", "Linseed", "Wheat", "Pulses"],
    "Sandy" := ["Millets", "Groundnut", "Watermelon", "Coconut", "Cashew"],
    "Black" := ["Cotton", "Sorghum", "Sunflower", "Chickpea", "Soybean"],
    "Alluvial" := ["Maize", "Mustard", "Barley", "Rice", "Sugarcane", "Jute"],
    "Red" := ["Groundnut", "Pulses", "Millets", "Oilseeds", "Cotton"],
    "Laterite" := ["Cashew", "Tapioca", "Coconut", "Coffee", "Tea", "Spices"]
  ]

  const HeatTolerant: seq<string> := ["Cotton", "Sorghum", "Millets", "Sunflower", "Groundnut"]
  const ColdTolerant: seq<string> := ["Wheat", "Barley", "Mustard", "Chickpea", "Potato"]
  const KharifCrops: seq<string> := ["Rice", "Cotton", "Soybean", "Groundnut", "Maize", "Millets", "Paddy"]
  const RabiCrops: seq<string> := ["Wheat", "Chickpea", "Mustard", "Barley", "Potato"]

  /**
   * `crop_data.get(soil, [])`: the soil's own list of at least five distinct
   * crops for a soil of the table, and nothing for any other.
   */
  function CropsForSoil(soil: string): (r: seq<string>)
    ensures soil in SoilCrops ==> r == SoilCrops[soil] && |r| >= 5 && NoDuplicates(r)
    ensures r != [] <==> soil in SoilCrops
  {
    if soil in SoilCrops then
      SoilTableWellFormed(soil);
      SoilCrops[soil]
    else
      []
  }

  /** Every soil of the table lists at least five crops, none twice. */
  lemma SoilTableWellFormed(soil: string)
    requires soil in SoilCrops
    ensures |SoilCrops[soil]| >= 5
    ensures NoDuplicates(SoilCrops[soil])
  {
  }

  /**
   * The temperature band: above 35 degrees only the heat-tolerant crops stay,
   * below 20 only the cold-tolerant ones, and in between the list is kept.
   */
  function TemperatureFilter(crops: seq<string>, temp: int): (r: seq<string>)
    ensures IsSubsequence(r, crops)
    ensures temp > 35 ==> forall c :: c in r <==> c in crops && c in HeatTolerant
    ensures temp < 20 ==> forall c :: c in r <==> c in crops && c in ColdTolerant
    ensures 20 <= temp <= 35 ==> r == crops
  {
    if temp > 35 then Filter(crops, HeatTolerant)
    else if temp < 20 then Filter(crops, ColdTolerant)
    else
      SubsequenceReflexive(crops);
      crops
  }

  /**
   * The season filter, keyed on the words "Kharif" and "Rabi" in the season's
   * label: a Kharif label keeps the Kharif crops, otherwise a Rabi label keeps
   * the Rabi crops, and any other label (Zaid) keeps the list.
   */
  function SeasonFilter(crops: seq<string>, season: string): (r: seq<string>)
    ensures IsSubsequence(r, crops)
    ensures IsSubstring("Kharif", season) ==>
      forall c :: c in r <==> c in crops && c in KharifCrops
    ensures !IsSubstring("Kharif", season) && IsSubstring("Rabi", season) ==>
      forall c :: c in r <==> c in crops && c in RabiCrops
    ensures !IsSubstring("Kharif", season) && !IsSubstring("Rabi", season) ==> r == crops
  {
    if Contains(season, "Kharif") then Filter(crops, KharifCrops)
    else if Contains(season, "Rabi") then Filter(crops, RabiCrops)
    else
      SubsequenceReflexive(crops);
      crops
  }

  /** The soil's list after both filters, before the fallback. */
  function Filtered(soil: string, temp: int, season: string): seq<string>
  {
    SeasonFilter(TemperatureFilter(CropsForSoil(soil), temp), season)
  }

  lemma FilteredIsSubsequence(soil: string, temp: int, season: string)
    ensures IsSubsequence(Filtered(soil, temp, season), CropsForSoil(soil))
  {
    var base := CropsForSoil(soil);
    var hot := TemperatureFilter(base, temp);
    var f := SeasonFilter(hot, season);
    SubsequenceTransitive(f, hot, base);
  }

  /** The recommendation shown to the farmer. */
  function Recommend(soil: string, temp: int, season: string): (r: seq<string>)
    ensures |r| <= 5
    ensures IsSubsequence(r, CropsForSoil(soil))
    ensures NoDuplicates(r)
    ensures r != [] <==> soil in SoilCrops
  {
    var base := CropsForSoil(soil);
    var crops := Filtered(soil, temp, season);
    var chosen := if crops == [] then Take(base, 5) else crops;
    FilteredIsSubsequence(soil, temp, season);
    SubsequenceTransitive(Take(chosen, 5), chosen, base);
    assert NoDuplicates(Take(chosen, 5)) by {
      if soil in SoilCrops {
        SoilTableWellFormed(soil);
        SubsequenceNoDuplicates(Take(chosen, 5), base);
      }
    }
    Take(chosen, 5)
  }

  /** When the filters leave nothing, the first five crops of the soil are recommended. */
  lemma FallbackToSoilList(soil: string, temp: int, season: string)
    requires Filtered(soil, temp, season) == []
    ensures Recommend(soil, temp, season) == Take(CropsForSoil(soil), 5)
  {
  }

  /** Otherwise the recommendation is the first five survivors of the filters. */
  lemma NoFallbackKeepsFiltered(soil: string, temp: int, season: string)
    requires Filtered(soil, temp, season) != []
    ensures Recommend(soil, temp, season) == Take(Filtered(soil, temp, season), 5)
  {
  }

  /** Above 35 degrees, without fallback, only heat-tolerant crops are recommended. */
  lemma HotRecommendsHeatTolerant(soil: string, temp: int, season: string)
    requires temp > 35 && Filtered(soil, temp, season) != []
    ensures forall c :: c in Recommend(soil, temp, season) ==> c in HeatTolerant
  {
    var hot := TemperatureFilter(CropsForSoil(soil), temp);
    var f := Filtered(soil, temp, season);
    if f != hot {
      SubsequenceMembers(f, hot);
    }
    SubsequenceMembers(Recommend(soil, temp, season), f);
  }

  /** Below 20 degrees, without fallback, only cold-tolerant crops are recommended. */
  lemma ColdRecommendsColdTolerant(soil: string, temp: int, season: string)
    requires temp < 20 && Filtered(soil, temp, season) != []
    ensures forall c :: c in Recommend(soil, temp, season) ==> c in ColdTolerant
  {
    var cold := TemperatureFilter(CropsForSoil(soil), temp);
    var f := Filtered(soil, temp, season);
    if f != cold {
      SubsequenceMembers(f, cold);
    }
    SubsequenceMembers(Recommend(soil, temp, season), f);
  }

  /** A Kharif season, without fallback, recommends only Kharif crops. */
  lemma KharifRecommendsKharifCrops(soil: string, temp: int, season: string)
    requires IsSubstring("Kharif", season) && Filtered(soil, temp, season) != []
    ensures forall c :: c in Recommend(soil, temp, season) ==> c in KharifCrops
  {
    SubsequenceMembers(Recommend(soil, temp, season), Filtered(soil, temp, season));
  }

  /** A Rabi season (not also labelled Kharif), without fallback, recommends only Rabi crops. */
  lemma RabiRecommendsRabiCrops(soil: string, temp: int, season: string)
    requires !IsSubstring("Kharif", season) && IsSubstring("Rabi", season)
    requires Filtered(soil, temp, season) != []
    ensures forall c :: c in Recommend(soil, temp, season) ==> c in RabiCrops
  {
    SubsequenceMembers(Recommend(soil, temp, season), Filtered(soil, temp, season));
  }

  /** The heat-tolerant list names neither Chickpea nor Soybean. */
  lemma NotHeatTolerant()
    ensures "Chickpea" !in HeatTolerant && "Soybean" !in HeatTolerant
  {
  }

  /** The Kharif list names neither Sorghum nor Sunflower. */
  lemma NotKharif()
    ensures "Sorghum" !in KharifCrops && "Sunflower" !in KharifCrops
  {
  }

  /** One step of the comprehension: the head is kept exactly when it is allowed. */
  lemma FilterStep(crops: seq<string>, keep: seq<string>)
    requires crops != []
    ensures Filter(crops, keep) ==
      if crops[0] in keep then [crops[0]] + Filter(crops[1..], keep) else Filter(crops[1..], keep)
  {
  }

  /** At 40 degrees the Black-soil list keeps its three heat-tolerant crops, in order. */
  lemma BlackSoilHot()
    ensures TemperatureFilter(CropsForSoil("Black"), 40) == ["Cotton", "Sorghum", "Sunflower"]
  {
    var base := CropsForSoil("Black");
    assert base == ["Cotton", "Sorghum", "Sunflower", "Chickpea", "Soybean"];
    assert base[1..] == ["Sorghum", "Sunflower", "Chickpea", "Soybean"];
    assert Filter(base[1..], HeatTolerant) == ["Sorghum", "Sunflower"] by {
      BlackSoilHotTail();
      FilterStep(base[1..], HeatTolerant);
      assert base[1..][1..] == ["Sunflower", "Chickpea", "Soybean"];
    }
    FilterStep(base, HeatTolerant);
  }

  /** The last three Black-soil crops: only Sunflower is heat-tolerant. */
  lemma BlackSoilHotTail()
    ensures Filter(["Sunflower", "Chickpea", "Soybean"], HeatTolerant) == ["Sunflower"]
  {
    var tail: seq<string> := ["Sunflower", "Chickpea", "Soybean"];
    NotHeatTolerant();
    FilterStep(tail, HeatTolerant);
    FilterStep(tail[1..], HeatTolerant);
    FilterStep(tail[2..], HeatTolerant);
    assert tail[2..][1..] == [];
  }

  /** The season filter keeps only Cotton of the three heat-tolerant Black-soil crops. */
  lemma HotBlackSoilInKharif()
    ensures SeasonFilter(["Cotton", "Sorghum", "Sunflower"], "Kharif (Monsoon)") == ["Cotton"]
  {
    var hot: seq<string> := ["Cotton", "Sorghum", "Sunflower"];
    OccursAt("Kharif", "Kharif (Monsoon)", 0);
    NotKharif();
    assert Filter(hot[1..], KharifCrops) == [] by {
      assert Filter(hot[2..], KharifCrops) == [];
    }
  }

  /** Black soil at 40 degrees in the monsoon: only Cotton is heat-tolerant and a Kharif crop. */
  lemma BlackSoilHotKharif()
    ensures Recommend("Black", 40, "Kharif (Monsoon)") == ["Cotton"]
  {
    BlackSoilHot();
    HotBlackSoilInKharif();
  }
}
