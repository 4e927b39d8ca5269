/** Worked examples: small designs and the plans the model gives them. */
module Scenarios {
  import opened Outcomes
  import opened WellGrid
  import opened Reactions
  import opened Dispense

  /** Two groups of two parts give four combinations, the first group
      varying slowest. */
  lemma TwoByTwoDesign()
    ensures CombinationCount([["a", "b"], ["x", "y"]]) == 4
    ensures var p := Product([["a", "b"], ["x", "y"]]);
      |p| == 4 && p[0] == ["a", "x"] && p[1] == ["a", "y"] && p[2] == ["b", "x"] && p[3] == ["b", "y"]
  {
    var g := [["a", "b"], ["x", "y"]];
    assert g[1..] == [["x", "y"]] && g[2..] == [];
    ProductSize(g);
    ProductAt(g);
    assert Combination(g, 0) == ["a", "x"];
    assert Combination(g, 1) == ["a", "y"];
    assert Combination(g, 2) == ["b", "x"];
    assert Combination(g, 3) == ["b", "y"];
  }

  /** Four reactions go to the first four wells of column 1. */
  lemma FirstColumnWells()
    ensures var ws := GenerateTargetWells(4);
      ws.Ok? && |ws.value| == 4 && ws.value[0] == "A1" && ws.value[1] == "B1" && ws.value[2] == "C1" && ws.value[3] == "D1"
  {
    assert Decimal(1) == "1";
    assert WellName(0, 1) == "A1" && WellName(1, 1) == "B1" && WellName(2, 1) == "C1" && WellName(3, 1) == "D1";
  }

  /** Nine columns in, the ninth well wraps to row A of column 2, and the
      plate holds no more than 96 wells. */
  lemma PlateEdges()
    ensures GenerateTargetWells(9).Ok? && GenerateTargetWells(9).value[8] == "A2"
    ensures GenerateTargetWells(96).Ok? && GenerateTargetWells(96).value[95] == "H12"
    ensures GenerateTargetWells(97) == Err(CapacityError(97, 96))
  {
    assert Decimal(12) == "12";
  }

  /** Reagent "R" on the wells A1 and A2, used once by each of three
      reactions, is drawn from A1, A2, A1. */
  lemma AlternatingWells()
    ensures Drawable(["R", "R", "R"], map["R" := ["A1", "A2"]])
    ensures Sources(["R", "R", "R"], map["R" := ["A1", "A2"]], map[]) == ["A1", "A2", "A1"]
  {
    var names, reagents := ["R", "R", "R"], map["R" := ["A1", "A2"]];
    assert OneReagent(names, reagents, "R");
    var s := Sources(names, reagents, map[]);
    RoundRobin(names, reagents, "R", 0);
    RoundRobin(names, reagents, "R", 1);
    RoundRobin(names, reagents, "R", 2);
  }

  /** Those three draws leave A1 used twice and A2 once. */
  lemma AlternatingCounts()
    ensures Uses(Tally(map[], ["A1", "A2", "A1"]), "A1") == 2
    ensures Uses(Tally(map[], ["A1", "A2", "A1"]), "A2") == 1
  {
    TallyCounts(map[], ["A1", "A2", "A1"], "A1");
    TallyCounts(map[], ["A1", "A2", "A1"], "A2");
  }

  /** With 10 uL per reaction and 0.5 uL per part: three parts leave
      8.5 uL of mastermix, twenty parts fill the reaction exactly and get
      no filler record, and twenty-one are too many. */
  lemma VolumeRules()
    ensures var cfg := Protocol(100000, 5000, "H12", "MM");
      && Filler(Reaction("A1", seq(3, _ => "R")), cfg) == 85000
      && BlockSize(Reaction("A1", seq(3, _ => "R")), cfg) == 4
      && Filler(Reaction("A1", seq(20, _ => "R")), cfg) == 0
      && BlockSize(Reaction("A1", seq(20, _ => "R")), cfg) == 20
      && PlanReaction(Reaction("A1", seq(21, _ => "R")), map["R" := ["S1"]], cfg, Plan([], map[]))
         == Err(VolumeExceeded("A1", 21, 5000, 100000))
  {
  }
}
