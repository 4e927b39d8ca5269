/** Dispense planning (generate_idot.py:171-221): from the reactions and
    the source plate to the ordered list of transfers.

    Volumes are integers in units of 0.0001 uL, the precision the script
    rounds the filler volume to, so `total - n * d` is exact. */
module Dispense {
  import opened Outcomes
  import opened Reactions
  import opened NameOrder

  /** One transfer record `(source_well, target_well, volume, liquid_name)`. */
  datatype Transfer = Transfer(source: string, target: string, volume: int, liquid: string)

  /** The keyword arguments of build_dispense_rows: `total_vol`,
      `dispense_vol`, `mm_well` and `mm_name`. */
  datatype Protocol = Protocol(totalVolume: int, partVolume: int, fillerWell: string, fillerName: string)

  /** `well_usage`: how often each source well has been drawn from. */
  type Usage = map<string, nat>

  /** `well_usage.get(w, 0)`. */
  function Uses(usage: Usage, w: string): nat {
    if w in usage then usage[w] else 0
  }

  /** `well_usage[w] = well_usage.get(w, 0) + 1`: one more draw from `w`,
      every other count as it was. */
  function Bump(usage: Usage, w: string): (next: Usage)
    ensures Uses(next, w) == Uses(usage, w) + 1
    ensures forall v :: v != w ==> Uses(next, v) == Uses(usage, v)
    ensures next.Keys == usage.Keys + {w}
  {
    usage[w := Uses(usage, w) + 1]
  }

  /** `w` is the first of `wells` whose usage is the smallest, the well
      that `min(wells, key=...)` returns. */
  predicate IsFirstLeastUsed(wells: seq<string>, usage: Usage, w: string) {
    exists k :: 0 <= k < |wells| && wells[k] == w
      && (forall j :: 0 <= j < |wells| ==> Uses(usage, w) <= Uses(usage, wells[j]))
      && (forall j :: 0 <= j < k ==> Uses(usage, wells[j]) > Uses(usage, w))
  }

  /** The position `min` settles on: it keeps the first minimum, replacing
      its candidate only by a strictly smaller one. */
  function LeastUsedIndex(wells: seq<string>, usage: Usage): (k: nat)
    requires |wells| > 0
    ensures k < |wells|
    ensures forall j :: 0 <= j < |wells| ==> Uses(usage, wells[k]) <= Uses(usage, wells[j])
    ensures forall j :: 0 <= j < k ==> Uses(usage, wells[j]) > Uses(usage, wells[k])
  {
    if |wells| == 1 then 0
    else
      var k := LeastUsedIndex(wells[..|wells| - 1], usage);
      if Uses(usage, wells[|wells| - 1]) < Uses(usage, wells[k]) then |wells| - 1 else k
  }

  /** pick_source_well (generate_idot.py:198-202): draw from the first
      least-used well of the reagent and count the draw.  The script's
      `min` of an empty list raises, which is the error case here. */
  method PickSourceWell(reagents: map<string, seq<string>>, reagent: string, usage: Usage)
    returns (r: Result<string>, next: Usage)
    requires reagent in reagents
    ensures |reagents[reagent]| == 0 <==> r.Err?
    ensures r.Err? ==> r.error == NoSourceWells(reagent) && next == usage
    ensures r.Ok? ==> IsFirstLeastUsed(reagents[reagent], usage, r.value)
    ensures r.Ok? ==> r.value == reagents[reagent][LeastUsedIndex(reagents[reagent], usage)]
    ensures r.Ok? ==> Uses(next, r.value) == Uses(usage, r.value) + 1
    ensures r.Ok? ==> forall w :: w != r.value ==> Uses(next, w) == Uses(usage, w)
    ensures r.Ok? ==> next.Keys == usage.Keys + {r.value}
    ensures r.Ok? ==> next == Bump(usage, r.value)
  {
    var wells := reagents[reagent];
    if |wells| == 0 {
      return Err(NoSourceWells(reagent)), usage;
    }
    var k := LeastUsedIndex(wells, usage);
    var best := wells[k];
    next := usage[best := Uses(usage, best) + 1];
    r := Ok(best);
  }

  /** A reagent with a single well is always drawn from that well. */
  lemma SingleWellAlwaysChosen(wells: seq<string>, usage: Usage, w: string)
    requires |wells| == 1 && IsFirstLeastUsed(wells, usage, w)
    ensures w == wells[0]
  {
  }

  // ---- the planner, loop by loop ----

  /** The state of one planning pass: the records emitted so far and the
      usage counter. */
  datatype Plan = Plan(rows: seq<Transfer>, usage: Usage)

  /** `total_vol - n_parts * dispense_vol`, the filler volume. */
  function Filler(rx: Reaction, cfg: Protocol): int {
    cfg.totalVolume - |rx.parts| * cfg.partVolume
  }

  predicate PartsDeclared(parts: seq<string>, reagents: map<string, seq<string>>) {
    forall j :: 0 <= j < |parts| ==> parts[j] in reagents
  }

  predicate AllDeclared(rxs: seq<Reaction>, reagents: map<string, seq<string>>) {
    forall i :: 0 <= i < |rxs| ==> PartsDeclared(rxs[i].parts, reagents)
  }

  /** The inner loop `for part in parts` (generate_idot.py:214-216), run
      from the state `start`. */
  function PlanParts(target: string, parts: seq<string>, reagents: map<string, seq<string>>, d: int, start: Plan): Result<Plan>
    requires PartsDeclared(parts, reagents)
  {
    if |parts| == 0 then Ok(start)
    else
      match PlanParts(target, parts[..|parts| - 1], reagents, d, start)
      case Err(e) => Err(e)
      case Ok(st) =>
        var p := parts[|parts| - 1];
        var wells := reagents[p];
        if |wells| == 0 then Err(NoSourceWells(p))
        else
          var w := wells[LeastUsedIndex(wells, st.usage)];
          Ok(Plan(st.rows + [Transfer(w, target, d, p)], Bump(st.usage, w)))
  }

  /** One pass of the outer loop (generate_idot.py:205-219): the volume
      check, the part records, then the filler record if any volume is
      left. */
  function PlanReaction(rx: Reaction, reagents: map<string, seq<string>>, cfg: Protocol, start: Plan): Result<Plan>
    requires PartsDeclared(rx.parts, reagents)
  {
    var mm := Filler(rx, cfg);
    if mm < 0 then Err(VolumeExceeded(rx.target, |rx.parts|, cfg.partVolume, cfg.totalVolume))
    else
      match PlanParts(rx.target, rx.parts, reagents, cfg.partVolume, start)
      case Err(e) => Err(e)
      case Ok(st) =>
        if mm > 0 then Ok(Plan(st.rows + [Transfer(cfg.fillerWell, rx.target, mm, cfg.fillerName)], st.usage))
        else Ok(st)
  }

  /** The outer loop `for target, parts in reactions`. */
  function PlanReactions(rxs: seq<Reaction>, reagents: map<string, seq<string>>, cfg: Protocol, start: Plan): Result<Plan>
    requires AllDeclared(rxs, reagents)
  {
    if |rxs| == 0 then Ok(start)
    else
      match PlanReactions(rxs[..|rxs| - 1], reagents, cfg, start)
      case Err(e) => Err(e)
      case Ok(st) => PlanReaction(rxs[|rxs| - 1], reagents, cfg, st)
  }

  function RowsOf(r: Result<Plan>): Result<seq<Transfer>> {
    match r
    case Err(e) => Err(e)
    case Ok(p) => Ok(p.rows)
  }

  /** Every part name some reaction uses that the source plate lacks. */
  function MissingParts(rxs: seq<Reaction>, reagents: map<string, seq<string>>): set<string> {
    set i, p | 0 <= i < |rxs| && p in rxs[i].parts && p !in reagents :: p
  }

  /** A reaction the planner stops at: its parts need more than the total
      volume, or one of them has no source well. */
  predicate ReactionFails(rx: Reaction, reagents: map<string, seq<string>>, cfg: Protocol) {
    Filler(rx, cfg) < 0 || exists j :: 0 <= j < |rx.parts| && rx.parts[j] in reagents && |reagents[rx.parts[j]]| == 0
  }

  /** The first part that has no source well. */
  function FirstUndrawable(parts: seq<string>, reagents: map<string, seq<string>>): (j: nat)
    requires exists j :: 0 <= j < |parts| && parts[j] in reagents && |reagents[parts[j]]| == 0
    ensures j < |parts| && parts[j] in reagents && |reagents[parts[j]]| == 0
    ensures forall i :: 0 <= i < j && parts[i] in reagents ==> |reagents[parts[i]]| > 0
  {
    if parts[0] in reagents && |reagents[parts[0]]| == 0 then 0
    else
      assert exists j :: 0 <= j < |parts[1..]| && parts[1..][j] in reagents && |reagents[parts[1..][j]]| == 0 by {
        var j :| 0 <= j < |parts| && parts[j] in reagents && |reagents[parts[j]]| == 0;
        assert parts[1..][j - 1] == parts[j];
      }
      FirstUndrawable(parts[1..], reagents) + 1
  }

  /** The error a failing reaction raises: the volume check comes first. */
  function ReactionError(rx: Reaction, reagents: map<string, seq<string>>, cfg: Protocol): Error
    requires ReactionFails(rx, reagents, cfg)
  {
    if Filler(rx, cfg) < 0 then VolumeExceeded(rx.target, |rx.parts|, cfg.partVolume, cfg.totalVolume)
    else NoSourceWells(rx.parts[FirstUndrawable(rx.parts, reagents)])
  }

  /** build_dispense_rows (generate_idot.py:171-221). */
  method BuildDispenseRows(reactions: seq<Reaction>, reagentToWells: map<string, seq<string>>,
                           totalVol: int, dispenseVol: int, mmWell: string, mmName: string)
    returns (r: Result<seq<Transfer>>)
    // the pre-flight check reports every missing part, sorted
    ensures MissingParts(reactions, reagentToWells) != {} ==>
              && r.Err? && r.error.MissingReagents?
              && StrictlySorted(r.error.names)
              && (forall x :: x in r.error.names <==> x in MissingParts(reactions, reagentToWells))
    ensures MissingParts(reactions, reagentToWells) == {} ==>
              && AllDeclared(reactions, reagentToWells)
              && r == RowsOf(PlanReactions(reactions, reagentToWells,
                                           Protocol(totalVol, dispenseVol, mmWell, mmName), Plan([], map[])))
    // otherwise the run fails exactly at the first reaction that cannot be planned
    ensures r.Err? <==> (MissingParts(reactions, reagentToWells) != {}
              || exists i :: 0 <= i < |reactions| && ReactionFails(reactions[i], reagentToWells, Protocol(totalVol, dispenseVol, mmWell, mmName)))
    ensures r.Err? && MissingParts(reactions, reagentToWells) == {} ==>
              exists i :: 0 <= i < |reactions| && IsFirstFailure(reactions, reagentToWells, Protocol(totalVol, dispenseVol, mmWell, mmName), i)
                && r.error == ReactionError(reactions[i], reagentToWells, Protocol(totalVol, dispenseVol, mmWell, mmName))
    // and a successful run is the reference layout of the load-balanced draws
    ensures r.Ok? ==>
              && Drawable(FlatParts(reactions), reagentToWells)
              && r.value == Layout(reactions, Sources(FlatParts(reactions), reagentToWells, map[]),
                                   Protocol(totalVol, dispenseVol, mmWell, mmName))
  {
    var cfg := Protocol(totalVol, dispenseVol, mmWell, mmName);
    var allParts := CollectParts(reactions);
    var missing := allParts - reagentToWells.Keys;
    assert missing == MissingParts(reactions, reagentToWells);
    if missing != {} {
      var names := SortNames(missing);
      return Err(MissingReagents(names));
    }
    NoneMissing(reactions, reagentToWells);
    r := PlanRows(reactions, reagentToWells, cfg);
    PlanOutcome(reactions, reagentToWells, cfg);
  }

  /** The set `all_parts` of every part name the reactions use
      (generate_idot.py:185-187). */
  method CollectParts(reactions: seq<Reaction>) returns (allParts: set<string>)
    ensures forall p :: p in allParts <==> exists i :: 0 <= i < |reactions| && p in reactions[i].parts
  {
    allParts := {};
    for i := 0 to |reactions|
      invariant forall p :: p in allParts <==> exists k :: 0 <= k < i && p in reactions[k].parts
    {
      allParts := allParts + set p | p in reactions[i].parts;
    }
  }

  /** No part is missing exactly when every part of every reaction is on
      the plate. */
  lemma NoneMissing(rxs: seq<Reaction>, reagents: map<string, seq<string>>)
    ensures MissingParts(rxs, reagents) == {} <==> AllDeclared(rxs, reagents)
  {
    if MissingParts(rxs, reagents) == {} {
      forall i, j | 0 <= i < |rxs| && 0 <= j < |rxs[i].parts|
        ensures rxs[i].parts[j] in reagents
      {
        assert rxs[i].parts[j] !in MissingParts(rxs, reagents);
      }
    } else {
      var p :| p in MissingParts(rxs, reagents);
      var i :| 0 <= i < |rxs| && p in rxs[i].parts && p !in reagents;
      var j :| 0 <= j < |rxs[i].parts| && rxs[i].parts[j] == p;
      assert !PartsDeclared(rxs[i].parts, reagents);
    }
  }

  /** The two loops of build_dispense_rows (generate_idot.py:204-219), run
      once every part is known to be on the source plate. */
  method PlanRows(reactions: seq<Reaction>, reagentToWells: map<string, seq<string>>, cfg: Protocol)
    returns (r: Result<seq<Transfer>>)
    requires AllDeclared(reactions, reagentToWells)
    ensures r == RowsOf(PlanReactions(reactions, reagentToWells, cfg, Plan([], map[])))
  {
    var totalVol, dispenseVol, mmWell, mmName := cfg.totalVolume, cfg.partVolume, cfg.fillerWell, cfg.fillerName;
    var usage: Usage := map[];
    var rows: seq<Transfer> := [];
    for i := 0 to |reactions|
      invariant PlanReactions(reactions[..i], reagentToWells, cfg, Plan([], map[])) == Ok(Plan(rows, usage))
    {
      assert reactions[..i + 1][..i] == reactions[..i];
      var target, parts := reactions[i].target, reactions[i].parts;
      var nParts := |parts|;
      var mmVol := totalVol - nParts * dispenseVol;
      if mmVol < 0 {
        r := Err(VolumeExceeded(target, nParts, dispenseVol, totalVol));
        PlanErrPersists(reactions, reagentToWells, cfg, i + 1);
        return;
      }
      ghost var before := Plan(rows, usage);
      for j := 0 to |parts|
        invariant PlanParts(target, parts[..j], reagentToWells, dispenseVol, before) == Ok(Plan(rows, usage))
      {
        var picked, next := PickSourceWell(reagentToWells, parts[j], usage);
        PlanPartsStep(target, parts, reagentToWells, dispenseVol, before, j);
        match picked {
          case Err(e) =>
            r := Err(e);
            PartsErrPersists(target, parts, reagentToWells, dispenseVol, before, j + 1);
            PlanErrPersists(reactions, reagentToWells, cfg, i + 1);
            return;
          case Ok(src) =>
            rows := rows + [Transfer(src, target, dispenseVol, parts[j])];
            usage := next;
        }
      }
      assert parts[..|parts|] == parts;
      if mmVol > 0 {
        rows := rows + [Transfer(mmWell, target, mmVol, mmName)];
      }
    }
    assert reactions[..|reactions|] == reactions;
    r := Ok(rows);
  }

  /** One turn of the inner loop: the next part draws from its first
      least-used well, or fails when it has none. */
  lemma PlanPartsStep(target: string, parts: seq<string>, reagents: map<string, seq<string>>,
                      d: int, start: Plan, j: nat)
    requires PartsDeclared(parts, reagents) && j < |parts|
    requires PlanParts(target, parts[..j], reagents, d, start).Ok?
    ensures var st := PlanParts(target, parts[..j], reagents, d, start).value;
            var wells := reagents[parts[j]];
            PlanParts(target, parts[..j + 1], reagents, d, start)
            == if |wells| == 0 then Err(NoSourceWells(parts[j]))
               else Ok(Plan(st.rows + [Transfer(wells[LeastUsedIndex(wells, st.usage)], target, d, parts[j])],
                            Bump(st.usage, wells[LeastUsedIndex(wells, st.usage)])))
  {
    assert parts[..j + 1][..j] == parts[..j];
  }

  /** One turn of the inner loop, stated as pick_source_well does: the turn
      fails exactly when the part has no well; otherwise it appends one
      record `(w, target, d, part)` where `w` is the first least-used well
      of the part, whose count goes up by one, every other count unchanged. */
  lemma PlanPartsDraw(target: string, parts: seq<string>, reagents: map<string, seq<string>>,
                      d: int, start: Plan, j: nat)
    requires PartsDeclared(parts, reagents) && j < |parts|
    requires PlanParts(target, parts[..j], reagents, d, start).Ok?
    ensures PlanParts(target, parts[..j + 1], reagents, d, start).Err? <==> |reagents[parts[j]]| == 0
    ensures PlanParts(target, parts[..j + 1], reagents, d, start).Err? ==>
              PlanParts(target, parts[..j + 1], reagents, d, start).error == NoSourceWells(parts[j])
    ensures PlanParts(target, parts[..j + 1], reagents, d, start).Ok? ==>
              exists w :: && IsFirstLeastUsed(reagents[parts[j]], PlanParts(target, parts[..j], reagents, d, start).value.usage, w)
                          && PlanParts(target, parts[..j + 1], reagents, d, start).value.rows
                             == PlanParts(target, parts[..j], reagents, d, start).value.rows + [Transfer(w, target, d, parts[j])]
                          && Uses(PlanParts(target, parts[..j + 1], reagents, d, start).value.usage, w)
                             == Uses(PlanParts(target, parts[..j], reagents, d, start).value.usage, w) + 1
                          && forall v :: v != w ==> Uses(PlanParts(target, parts[..j + 1], reagents, d, start).value.usage, v)
                                                    == Uses(PlanParts(target, parts[..j], reagents, d, start).value.usage, v)
  {
    PlanPartsStep(target, parts, reagents, d, start, j);
    var st := PlanParts(target, parts[..j], reagents, d, start).value;
    var wells := reagents[parts[j]];
    if |wells| > 0 {
      LeastUsedIsFirst(wells, st.usage);
    }
  }

  /** Once a prefix of the parts fails, the whole inner loop fails the same way. */
  lemma {:induction false} PartsErrPersists(target: string, parts: seq<string>, reagents: map<string, seq<string>>,
                                            d: int, start: Plan, n: nat)
    requires PartsDeclared(parts, reagents) && n <= |parts|
    requires PlanParts(target, parts[..n], reagents, d, start).Err?
    ensures PlanParts(target, parts, reagents, d, start) == PlanParts(target, parts[..n], reagents, d, start)
    decreases |parts|
  {
    if n < |parts| {
      var init := parts[..|parts| - 1];
      assert init[..n] == parts[..n];
      PartsErrPersists(target, init, reagents, d, start, n);
    } else {
      assert parts[..n] == parts;
    }
  }

  /** Once a prefix of the reactions fails, the whole run fails the same way. */
  lemma {:induction false} PlanErrPersists(rxs: seq<Reaction>, reagents: map<string, seq<string>>, cfg: Protocol, n: nat)
    requires AllDeclared(rxs, reagents) && n <= |rxs|
    requires PlanReactions(rxs[..n], reagents, cfg, Plan([], map[])).Err?
    ensures PlanReactions(rxs, reagents, cfg, Plan([], map[])) == PlanReactions(rxs[..n], reagents, cfg, Plan([], map[]))
    decreases |rxs|
  {
    if n < |rxs| {
      var init := rxs[..|rxs| - 1];
      assert init[..n] == rxs[..n];
      PlanErrPersists(init, reagents, cfg, n);
    } else {
      assert rxs[..n] == rxs;
    }
  }

  // ---- the reference: load-balanced draws, then the record layout ----

  /** The part names of all reactions in processing order. */
  function FlatParts(rxs: seq<Reaction>): seq<string> {
    if |rxs| == 0 then [] else FlatParts(rxs[..|rxs| - 1]) + rxs[|rxs| - 1].parts
  }

  lemma FlatPartsSnoc(rxs: seq<Reaction>)
    requires |rxs| > 0
    ensures FlatParts(rxs) == FlatParts(rxs[..|rxs| - 1]) + rxs[|rxs| - 1].parts
  {
  }

  /** Every name can be drawn: it is on the source plate with a well. */
  predicate Drawable(names: seq<string>, reagents: map<string, seq<string>>) {
    forall t :: 0 <= t < |names| ==> names[t] in reagents && |reagents[names[t]]| > 0
  }

  /** The usage counter after the draws `drawn`, starting from `u`. */
  function Tally(u: Usage, drawn: seq<string>): Usage {
    if |drawn| == 0 then u else Bump(Tally(u, drawn[..|drawn| - 1]), drawn[|drawn| - 1])
  }

  /** The source wells drawn for `names`, one per name: each draws from the
      first of its reagent's wells with the fewest earlier draws. */
  function Sources(names: seq<string>, reagents: map<string, seq<string>>, u: Usage): (s: seq<string>)
    requires Drawable(names, reagents)
    ensures |s| == |names|
  {
    if |names| == 0 then []
    else
      var prev := Sources(names[..|names| - 1], reagents, u);
      var wells := reagents[names[|names| - 1]];
      prev + [wells[LeastUsedIndex(wells, Tally(u, prev))]]
  }

  /** The filler record is there only when some volume is left. */
  function BlockSize(rx: Reaction, cfg: Protocol): nat {
    |rx.parts| + if Filler(rx, cfg) > 0 then 1 else 0
  }

  /** The number of records the reactions produce. */
  function RecordCount(rxs: seq<Reaction>, cfg: Protocol): nat {
    if |rxs| == 0 then 0 else RecordCount(rxs[..|rxs| - 1], cfg) + BlockSize(rxs[|rxs| - 1], cfg)
  }

  /** The block of one reaction: a record per part, in part order, then
      the optional filler record. */
  function Block(rx: Reaction, srcs: seq<string>, cfg: Protocol): (b: seq<Transfer>)
    requires |srcs| == |rx.parts|
    ensures |b| == BlockSize(rx, cfg)
  {
    PartRecords(rx.target, rx.parts, srcs, cfg.partVolume)
    + if Filler(rx, cfg) > 0 then [Transfer(cfg.fillerWell, rx.target, Filler(rx, cfg), cfg.fillerName)] else []
  }

  /** A record per part, drawing part `j` from `srcs[j]`. */
  function PartRecords(target: string, parts: seq<string>, srcs: seq<string>, d: int): (rs: seq<Transfer>)
    requires |srcs| == |parts|
    ensures |rs| == |parts|
  {
    seq(|parts|, j requires 0 <= j < |parts| => Transfer(srcs[j], target, d, parts[j]))
  }

  /** The blocks of all reactions, in reaction order, drawing the sources
      `srcs` in turn. */
  function Layout(rxs: seq<Reaction>, srcs: seq<string>, cfg: Protocol): seq<Transfer>
    requires |srcs| == |FlatParts(rxs)|
  {
    if |rxs| == 0 then []
    else
      var m := |FlatParts(rxs[..|rxs| - 1])|;
      Layout(rxs[..|rxs| - 1], srcs[..m], cfg) + Block(rxs[|rxs| - 1], srcs[m..], cfg)
  }

  // ---- the shape of the layout ----

  /** The first `k` reactions' parts open the flat list. */
  lemma {:induction false} FlatPartsPrefix(rxs: seq<Reaction>, k: nat)
    requires k <= |rxs|
    ensures |FlatParts(rxs[..k])| <= |FlatParts(rxs)|
    ensures FlatParts(rxs)[..|FlatParts(rxs[..k])|] == FlatParts(rxs[..k])
    decreases |rxs|
  {
    if k < |rxs| {
      var init := rxs[..|rxs| - 1];
      assert init[..k] == rxs[..k];
      FlatPartsPrefix(init, k);
      FlatPartsSnoc(rxs);
      var a, b := FlatParts(init), rxs[|rxs| - 1].parts;
      assert (a + b)[..|a|] == a;
    } else {
      assert rxs[..k] == rxs;
    }
  }

  /** Part `j` of reaction `i` follows the parts of the reactions before it. */
  lemma FlatPartsAt(rxs: seq<Reaction>, i: nat, j: nat)
    requires i < |rxs| && j < |rxs[i].parts|
    ensures |FlatParts(rxs[..i])| + j < |FlatParts(rxs)|
    ensures FlatParts(rxs)[|FlatParts(rxs[..i])| + j] == rxs[i].parts[j]
  {
    var pre := rxs[..i + 1];
    assert pre[..i] == rxs[..i] && pre[i] == rxs[i];
    FlatPartsSnoc(pre);
    FlatPartsPrefix(rxs, i + 1);
    var m := |FlatParts(rxs[..i])|;
    assert FlatParts(pre)[m + j] == rxs[i].parts[j];
    assert FlatParts(rxs)[m + j] == FlatParts(pre)[m + j];
  }

  /** The layout holds one record per part plus one per positive filler. */
  lemma {:induction false} LayoutSize(rxs: seq<Reaction>, srcs: seq<string>, cfg: Protocol)
    requires |srcs| == |FlatParts(rxs)|
    ensures |Layout(rxs, srcs, cfg)| == RecordCount(rxs, cfg)
    decreases |rxs|
  {
    if |rxs| > 0 {
      FlatPartsSnoc(rxs);
      var m := |FlatParts(rxs[..|rxs| - 1])|;
      LayoutSize(rxs[..|rxs| - 1], srcs[..m], cfg);
    }
  }

  /** The first `k` reactions' records open the layout, drawing the first
      sources. */
  lemma {:induction false} LayoutPrefix(rxs: seq<Reaction>, srcs: seq<string>, cfg: Protocol, k: nat)
    requires |srcs| == |FlatParts(rxs)| && k <= |rxs|
    ensures |FlatParts(rxs[..k])| <= |srcs| && RecordCount(rxs[..k], cfg) <= |Layout(rxs, srcs, cfg)|
            && Layout(rxs, srcs, cfg)[..RecordCount(rxs[..k], cfg)]
               == Layout(rxs[..k], srcs[..|FlatParts(rxs[..k])|], cfg)
    decreases |rxs|
  {
    FlatPartsPrefix(rxs, k);
    LayoutSize(rxs, srcs, cfg);
    if k < |rxs| {
      var init := rxs[..|rxs| - 1];
      FlatPartsSnoc(rxs);
      var m := |FlatParts(init)|;
      var s' := srcs[..m];
      assert init[..k] == rxs[..k];
      LayoutPrefix(init, s', cfg, k);
      FlatPartsPrefix(init, k);
      LayoutSize(init, s', cfg);
      var x := |FlatParts(rxs[..k])|;
      assert s'[..x] == srcs[..x];
      var a, b := Layout(init, s', cfg), Block(rxs[|rxs| - 1], srcs[m..], cfg);
      assert (a + b)[..RecordCount(rxs[..k], cfg)] == a[..RecordCount(rxs[..k], cfg)];
    } else {
      assert rxs[..k] == rxs;
      assert srcs[..|FlatParts(rxs)|] == srcs;
    }
  }

  /** Reaction `i`'s block sits right after the blocks of the reactions
      before it, drawing the sources right after theirs. */
  lemma LayoutBlock(rxs: seq<Reaction>, srcs: seq<string>, cfg: Protocol, i: nat)
    requires |srcs| == |FlatParts(rxs)| && i < |rxs|
    ensures RecordCount(rxs[..i + 1], cfg) == RecordCount(rxs[..i], cfg) + BlockSize(rxs[i], cfg)
    ensures |FlatParts(rxs[..i])| + |rxs[i].parts| <= |srcs|
    ensures RecordCount(rxs[..i], cfg) + BlockSize(rxs[i], cfg) <= |Layout(rxs, srcs, cfg)|
    ensures Layout(rxs, srcs, cfg)[RecordCount(rxs[..i], cfg)..RecordCount(rxs[..i], cfg) + BlockSize(rxs[i], cfg)]
            == Block(rxs[i], srcs[|FlatParts(rxs[..i])|..|FlatParts(rxs[..i])| + |rxs[i].parts|], cfg)
  {
    PrefixCounts(rxs, cfg, i);
    LayoutPrefixBlock(rxs, srcs, cfg, i);
    LayoutSize(rxs[..i], srcs[..|FlatParts(rxs[..i])|], cfg);
    SliceAfterPrefix(Layout(rxs, srcs, cfg), Layout(rxs[..i], srcs[..|FlatParts(rxs[..i])|], cfg),
                     Block(rxs[i], srcs[|FlatParts(rxs[..i])|..|FlatParts(rxs[..i])| + |rxs[i].parts|], cfg));
  }

  /** Counting one more reaction adds its parts and its block. */
  lemma PrefixCounts(rxs: seq<Reaction>, cfg: Protocol, i: nat)
    requires i < |rxs|
    ensures RecordCount(rxs[..i + 1], cfg) == RecordCount(rxs[..i], cfg) + BlockSize(rxs[i], cfg)
    ensures |FlatParts(rxs[..i + 1])| == |FlatParts(rxs[..i])| + |rxs[i].parts|
  {
    var pre := rxs[..i + 1];
    assert pre[..i] == rxs[..i] && pre[i] == rxs[i];
    FlatPartsSnoc(pre);
  }

  /** The records of the first `i + 1` reactions: those of the first `i`,
      then reaction `i`'s block. */
  lemma LayoutPrefixBlock(rxs: seq<Reaction>, srcs: seq<string>, cfg: Protocol, i: nat)
    requires |srcs| == |FlatParts(rxs)| && i < |rxs|
    ensures |FlatParts(rxs[..i])| + |rxs[i].parts| <= |srcs|
    ensures RecordCount(rxs[..i + 1], cfg) <= |Layout(rxs, srcs, cfg)|
    ensures Layout(rxs, srcs, cfg)[..RecordCount(rxs[..i + 1], cfg)]
            == Layout(rxs[..i], srcs[..|FlatParts(rxs[..i])|], cfg)
               + Block(rxs[i], srcs[|FlatParts(rxs[..i])|..|FlatParts(rxs[..i])| + |rxs[i].parts|], cfg)
  {
    PrefixCounts(rxs, cfg, i);
    FlatPartsPrefix(rxs, i + 1);
    LayoutPrefix(rxs, srcs, cfg, i + 1);
    LayoutSnocAt(rxs, srcs[..|FlatParts(rxs[..i + 1])|], cfg, i);
    PrefixSlices(srcs, |FlatParts(rxs[..i])|, |rxs[i].parts|, |FlatParts(rxs[..i + 1])|);
  }

  /** `LayoutSnoc` for the first `i + 1` reactions. */
  lemma LayoutSnocAt(rxs: seq<Reaction>, srcs: seq<string>, cfg: Protocol, i: nat)
    requires i < |rxs| && |srcs| == |FlatParts(rxs[..i + 1])|
    ensures |FlatParts(rxs[..i])| + |rxs[i].parts| == |srcs|
    ensures Layout(rxs[..i + 1], srcs, cfg)
            == Layout(rxs[..i], srcs[..|FlatParts(rxs[..i])|], cfg) + Block(rxs[i], srcs[|FlatParts(rxs[..i])|..], cfg)
  {
    var pre := rxs[..i + 1];
    assert pre[..i] == rxs[..i] && pre[i] == rxs[i];
    LayoutSnoc(pre, srcs, cfg);
  }

  lemma PrefixSlices<T>(s: seq<T>, m: nat, n: nat, k: nat)
    requires m + n == k <= |s|
    ensures s[..k][..m] == s[..m] && s[..k][m..] == s[m..m + n]
  {
  }

  lemma LayoutSnoc(rxs: seq<Reaction>, srcs: seq<string>, cfg: Protocol)
    requires |srcs| == |FlatParts(rxs)| && |rxs| > 0
    ensures var m := |FlatParts(rxs[..|rxs| - 1])|;
      m <= |srcs| && Layout(rxs, srcs, cfg) == Layout(rxs[..|rxs| - 1], srcs[..m], cfg) + Block(rxs[|rxs| - 1], srcs[m..], cfg)
  {
    FlatPartsSnoc(rxs);
  }

  lemma SliceAfterPrefix<T>(l: seq<T>, head: seq<T>, tail: seq<T>)
    requires |head| + |tail| <= |l| && l[..|head| + |tail|] == head + tail
    ensures l[|head|..|head| + |tail|] == tail
  {
    forall k | 0 <= k < |tail|
      ensures l[|head|..|head| + |tail|][k] == tail[k]
    {
      assert l[|head| + k] == (head + tail)[|head| + k];
    }
  }

  /** Part `j` of reaction `i` is dispensed by the record at offset `j` of
      the reaction's block, drawing the source that comes at the part's
      place in the flat part list. */
  lemma PartRecordAt(rxs: seq<Reaction>, srcs: seq<string>, cfg: Protocol, i: nat, j: nat)
    requires |srcs| == |FlatParts(rxs)| && i < |rxs| && j < |rxs[i].parts|
    ensures RecordCount(rxs[..i], cfg) + j < |Layout(rxs, srcs, cfg)|
    ensures |FlatParts(rxs[..i])| + j < |srcs|
    ensures Layout(rxs, srcs, cfg)[RecordCount(rxs[..i], cfg) + j]
            == Transfer(srcs[|FlatParts(rxs[..i])| + j], rxs[i].target, cfg.partVolume, rxs[i].parts[j])
  {
    LayoutBlock(rxs, srcs, cfg, i);
    BlockPart(rxs, srcs, cfg, i, j);
  }

  /** Record `j` of reaction `i`'s block dispenses part `j` from its
      source. */
  lemma BlockPart(rxs: seq<Reaction>, srcs: seq<string>, cfg: Protocol, i: nat, j: nat)
    requires |srcs| == |FlatParts(rxs)| && i < |rxs| && j < |rxs[i].parts|
    requires |FlatParts(rxs[..i])| + |rxs[i].parts| <= |srcs|
    requires RecordCount(rxs[..i], cfg) + BlockSize(rxs[i], cfg) <= |Layout(rxs, srcs, cfg)|
    requires Layout(rxs, srcs, cfg)[RecordCount(rxs[..i], cfg)..RecordCount(rxs[..i], cfg) + BlockSize(rxs[i], cfg)]
             == Block(rxs[i], srcs[|FlatParts(rxs[..i])|..|FlatParts(rxs[..i])| + |rxs[i].parts|], cfg)
    ensures RecordCount(rxs[..i], cfg) + j < |Layout(rxs, srcs, cfg)|
    ensures Layout(rxs, srcs, cfg)[RecordCount(rxs[..i], cfg) + j]
            == Transfer(srcs[|FlatParts(rxs[..i])| + j], rxs[i].target, cfg.partVolume, rxs[i].parts[j])
  {
    SliceAt(Layout(rxs, srcs, cfg), RecordCount(rxs[..i], cfg), RecordCount(rxs[..i], cfg) + BlockSize(rxs[i], cfg),
            Block(rxs[i], srcs[|FlatParts(rxs[..i])|..|FlatParts(rxs[..i])| + |rxs[i].parts|], cfg), j);
    BlockAt(rxs[i], srcs[|FlatParts(rxs[..i])|..|FlatParts(rxs[..i])| + |rxs[i].parts|], cfg, j);
  }

  lemma BlockAt(rx: Reaction, srcs: seq<string>, cfg: Protocol, j: nat)
    requires |srcs| == |rx.parts| && j < |rx.parts|
    ensures Block(rx, srcs, cfg)[j] == Transfer(srcs[j], rx.target, cfg.partVolume, rx.parts[j])
  {
  }

  /** An element of a slice equal to `b` is the element of `b`. */
  lemma SliceAt<T>(l: seq<T>, lo: nat, hi: nat, b: seq<T>, j: nat)
    requires lo <= hi <= |l| && l[lo..hi] == b && j < |b|
    ensures l[lo + j] == b[j]
  {
  }

  /** The source drawn for part `j` of reaction `i` is one of the wells
      declared for that part. */
  lemma PartSourceDeclared(rxs: seq<Reaction>, reagents: map<string, seq<string>>, i: nat, j: nat)
    requires Drawable(FlatParts(rxs), reagents) && i < |rxs| && j < |rxs[i].parts|
    ensures |FlatParts(rxs[..i])| + j < |FlatParts(rxs)|
    ensures rxs[i].parts[j] in reagents
    ensures Sources(FlatParts(rxs), reagents, map[])[|FlatParts(rxs[..i])| + j] in reagents[rxs[i].parts[j]]
  {
    FlatPartsAt(rxs, i, j);
    SourceAt(FlatParts(rxs), reagents, map[], |FlatParts(rxs[..i])| + j);
  }

  /** The filler record follows the part records of its reaction exactly
      when the filler volume is positive; otherwise the next block starts
      right after the part records. */
  lemma FillerRecordAt(rxs: seq<Reaction>, srcs: seq<string>, cfg: Protocol, i: nat)
    requires |srcs| == |FlatParts(rxs)| && i < |rxs|
    ensures Filler(rxs[i], cfg) > 0 ==>
              && RecordCount(rxs[..i + 1], cfg) == RecordCount(rxs[..i], cfg) + |rxs[i].parts| + 1
              && RecordCount(rxs[..i], cfg) + |rxs[i].parts| < |Layout(rxs, srcs, cfg)|
              && Layout(rxs, srcs, cfg)[RecordCount(rxs[..i], cfg) + |rxs[i].parts|]
                 == Transfer(cfg.fillerWell, rxs[i].target, cfg.totalVolume - |rxs[i].parts| * cfg.partVolume, cfg.fillerName)
    ensures Filler(rxs[i], cfg) <= 0 ==> RecordCount(rxs[..i + 1], cfg) == RecordCount(rxs[..i], cfg) + |rxs[i].parts|
  {
    LayoutBlock(rxs, srcs, cfg, i);
    if Filler(rxs[i], cfg) > 0 {
      BlockFiller(Layout(rxs, srcs, cfg), RecordCount(rxs[..i], cfg), rxs[i], srcs, |FlatParts(rxs[..i])|, cfg);
    }
  }

  /** The last record of a block with volume left over is the filler
      record. */
  lemma BlockFiller(l: seq<Transfer>, o: nat, rx: Reaction, srcs: seq<string>, m: nat, cfg: Protocol)
    requires m + |rx.parts| <= |srcs| && Filler(rx, cfg) > 0 && o + BlockSize(rx, cfg) <= |l|
    requires l[o..o + BlockSize(rx, cfg)] == Block(rx, srcs[m..m + |rx.parts|], cfg)
    ensures o + |rx.parts| < |l|
    ensures l[o + |rx.parts|] == Transfer(cfg.fillerWell, rx.target, cfg.totalVolume - |rx.parts| * cfg.partVolume, cfg.fillerName)
  {
    SliceAt(l, o, o + BlockSize(rx, cfg), Block(rx, srcs[m..m + |rx.parts|], cfg), |rx.parts|);
  }

  /** The number of reactions whose filler volume is positive. */
  function FilledCount(rxs: seq<Reaction>, cfg: Protocol): nat {
    if |rxs| == 0 then 0
    else FilledCount(rxs[..|rxs| - 1], cfg) + if Filler(rxs[|rxs| - 1], cfg) > 0 then 1 else 0
  }

  /** The records are the part records plus one filler record per reaction
      with volume left over. */
  lemma {:induction false} RecordCountSum(rxs: seq<Reaction>, cfg: Protocol)
    ensures RecordCount(rxs, cfg) == |FlatParts(rxs)| + FilledCount(rxs, cfg)
  {
    if |rxs| > 0 {
      RecordCountSum(rxs[..|rxs| - 1], cfg);
      FlatPartsSnoc(rxs);
    }
  }

  predicate IsFirstFailure(rxs: seq<Reaction>, reagents: map<string, seq<string>>, cfg: Protocol, i: nat) {
    && i < |rxs|
    && ReactionFails(rxs[i], reagents, cfg)
    && forall j :: 0 <= j < i ==> !ReactionFails(rxs[j], reagents, cfg)
  }

  // ---- lemmas about the reference ----

  /** A well's count is its initial count plus the number of draws from it. */
  lemma {:induction false} TallyCounts(u: Usage, drawn: seq<string>, w: string)
    ensures Uses(Tally(u, drawn), w) == Uses(u, w) + multiset(drawn)[w]
  {
    if |drawn| > 0 {
      var init, x := drawn[..|drawn| - 1], drawn[|drawn| - 1];
      TallyCounts(u, init, w);
      assert drawn == init + [x];
      assert multiset(drawn) == multiset(init) + multiset{x};
    }
  }

  /** Only wells that start counted or are drawn from appear in the counter. */
  lemma {:induction false} TallyKeys(u: Usage, drawn: seq<string>)
    ensures Tally(u, drawn).Keys == u.Keys + set x | x in drawn
  {
    if |drawn| > 0 {
      var init, x := drawn[..|drawn| - 1], drawn[|drawn| - 1];
      TallyKeys(u, init);
      assert drawn == init + [x];
    }
  }

  lemma TallyEmpty(u: Usage)
    ensures Tally(u, []) == u
  {
  }

  /** Tallying in two steps is tallying once. */
  lemma {:induction false} TallyAppend(u: Usage, a: seq<string>, b: seq<string>)
    ensures Tally(Tally(u, a), b) == Tally(u, a + b)
    decreases |b|
  {
    if |b| == 0 {
      assert a + b == a;
    } else {
      var b', x := b[..|b| - 1], b[|b| - 1];
      TallyAppend(u, a, b');
      assert (a + b)[..|a + b| - 1] == a + b' && (a + b)[|a + b| - 1] == x;
    }
  }

  /** Counting one more draw is bumping its well. */
  lemma TallyBump(u: Usage, a: seq<string>, w: string)
    ensures Bump(Tally(u, a), w) == Tally(u, a + [w])
  {
    assert (a + [w])[..|a|] == a;
  }

  /** The same draws, split after `a`: the draws for `b` start from the
      counter the draws for `a` leave. */
  lemma {:induction false} SourcesAppend(a: seq<string>, b: seq<string>, reagents: map<string, seq<string>>, u: Usage)
    requires Drawable(a + b, reagents)
    ensures Drawable(a, reagents) && Drawable(b, reagents)
    ensures Sources(a + b, reagents, u) == Sources(a, reagents, u) + Sources(b, reagents, Tally(u, Sources(a, reagents, u)))
    decreases |b|
  {
    DrawableSplit(a, b, reagents);
    if |b| == 0 {
      assert a + b == a;
    } else {
      var b' := b[..|b| - 1];
      var x := b[|b| - 1];
      var ab' := a + b';
      assert (a + b)[..|a + b| - 1] == ab' && (a + b)[|a + b| - 1] == x;
      DrawableSplit(ab', [x], reagents);
      SourcesAppend(a, b', reagents, u);
      var sa := Sources(a, reagents, u);
      var ua := Tally(u, sa);
      var sb' := Sources(b', reagents, ua);
      TallyAppend(u, sa, sb');
      var wells := reagents[x];
      var w := wells[LeastUsedIndex(wells, Tally(ua, sb'))];
      assert Sources(b, reagents, ua) == sb' + [w];
      assert Sources(a + b, reagents, u) == (sa + sb') + [w];
      ConcatAssociate(sa, sb', [w]);
    }
  }

  lemma ConcatAssociate<T>(a: seq<T>, b: seq<T>, c: seq<T>)
    ensures (a + b) + c == a + (b + c)
  {
  }

  /** The names of a concatenation are drawable exactly when both halves are. */
  lemma DrawableSplit(a: seq<string>, b: seq<string>, reagents: map<string, seq<string>>)
    ensures Drawable(a + b, reagents) <==> Drawable(a, reagents) && Drawable(b, reagents)
  {
    if Drawable(a + b, reagents) {
      assert forall t :: 0 <= t < |a| ==> (a + b)[t] == a[t];
      assert forall t :: 0 <= t < |b| ==> (a + b)[|a| + t] == b[t];
    }
  }

  /** Cutting the names cuts the draws: later names do not affect earlier draws. */
  lemma {:induction false} SourcesPrefix(names: seq<string>, reagents: map<string, seq<string>>, u: Usage, t: nat)
    requires Drawable(names, reagents) && t <= |names|
    ensures Drawable(names[..t], reagents)
    ensures Sources(names, reagents, u)[..t] == Sources(names[..t], reagents, u)
    decreases |names|
  {
    if t < |names| {
      var init := names[..|names| - 1];
      assert init[..t] == names[..t];
      SourcesPrefix(init, reagents, u, t);
      assert Sources(names, reagents, u)[..t] == Sources(init, reagents, u)[..t];
    } else {
      assert names[..t] == names;
    }
  }

  /** Draw `t` is made by the `min` of its reagent's wells under the
      counter of the draws before it. */
  lemma SourceAt(names: seq<string>, reagents: map<string, seq<string>>, u: Usage, t: nat)
    requires Drawable(names, reagents) && t < |names|
    ensures Sources(names, reagents, u)[t]
            == reagents[names[t]][LeastUsedIndex(reagents[names[t]], Tally(u, Sources(names, reagents, u)[..t]))]
  {
    SourcesPrefix(names, reagents, u, t + 1);
    SourcesPrefix(names, reagents, u, t);
    var pre := names[..t + 1];
    assert pre[..t] == names[..t] && pre[t] == names[t];
    var s := Sources(names, reagents, u);
    assert s[..t + 1][..t] == s[..t];
    assert s[t] == s[..t + 1][t];
  }

  /** The index `min` settles on names the first least-used well. */
  lemma LeastUsedIsFirst(wells: seq<string>, usage: Usage)
    requires |wells| > 0
    ensures IsFirstLeastUsed(wells, usage, wells[LeastUsedIndex(wells, usage)])
  {
    var k := LeastUsedIndex(wells, usage);
    assert 0 <= k < |wells| && wells[k] == wells[k];
  }

  /** Load balancing, stated on each draw: name `t` draws from one of its
      reagent's wells, the first one with the fewest draws before it. */
  lemma SourcesDraw(names: seq<string>, reagents: map<string, seq<string>>, u: Usage)
    requires Drawable(names, reagents)
    ensures forall t :: 0 <= t < |names| ==>
              && Sources(names, reagents, u)[t] in reagents[names[t]]
              && IsFirstLeastUsed(reagents[names[t]], Tally(u, Sources(names, reagents, u)[..t]), Sources(names, reagents, u)[t])
  {
    var s := Sources(names, reagents, u);
    forall t | 0 <= t < |names|
      ensures s[t] in reagents[names[t]]
      ensures IsFirstLeastUsed(reagents[names[t]], Tally(u, s[..t]), s[t])
    {
      SourceAt(names, reagents, u, t);
      LeastUsedIsFirst(reagents[names[t]], Tally(u, s[..t]));
    }
  }

  /** The inner loop, when every part can be drawn, appends the part
      records of the reference draws and counts those draws. */
  lemma {:induction false} PlanPartsOk(target: string, parts: seq<string>, reagents: map<string, seq<string>>,
                                       d: int, rows: seq<Transfer>, u: Usage)
    requires PartsDeclared(parts, reagents) && Drawable(parts, reagents)
    ensures PlanParts(target, parts, reagents, d, Plan(rows, u))
            == Ok(Plan(rows + PartRecords(target, parts, Sources(parts, reagents, u), d), Tally(u, Sources(parts, reagents, u))))
    decreases |parts|
  {
    var s := Sources(parts, reagents, u);
    if |parts| == 0 {
      assert rows + PartRecords(target, parts, s, d) == rows;
      TallyEmpty(u);
    } else {
      var n := |parts|;
      var init := parts[..n - 1];
      var p := parts[n - 1];
      assert Drawable(init, reagents);
      var si := Sources(init, reagents, u);
      var pri := PartRecords(target, init, si, d);
      var wells := reagents[p];
      var w := wells[LeastUsedIndex(wells, Tally(u, si))];
      var rec := Transfer(w, target, d, p);
      assert PlanParts(target, init, reagents, d, Plan(rows, u)) == Ok(Plan(rows + pri, Tally(u, si))) by {
        PlanPartsOk(target, init, reagents, d, rows, u);
      }
      assert PlanParts(target, parts, reagents, d, Plan(rows, u)) == Ok(Plan((rows + pri) + [rec], Bump(Tally(u, si), w)));
      assert s == si + [w];
      assert Bump(Tally(u, si), w) == Tally(u, s) by {
        TallyBump(u, si, w);
      }
      assert PartRecords(target, parts, s, d) == pri + [rec] by {
        PartRecordsSnoc(target, parts, s, d);
        assert s[..n - 1] == si;
      }
      ConcatAssociate(rows, pri, [rec]);
    }
  }

  lemma PartRecordsSnoc(target: string, parts: seq<string>, srcs: seq<string>, d: int)
    requires |srcs| == |parts| > 0
    ensures PartRecords(target, parts, srcs, d)
            == PartRecords(target, parts[..|parts| - 1], srcs[..|parts| - 1], d)
               + [Transfer(srcs[|parts| - 1], target, d, parts[|parts| - 1])]
  {
  }

  /** The inner loop fails exactly when some part has no source well, and
      then at the first such part. */
  lemma {:induction false} PlanPartsFails(target: string, parts: seq<string>, reagents: map<string, seq<string>>,
                                          d: int, start: Plan)
    requires PartsDeclared(parts, reagents)
    ensures PlanParts(target, parts, reagents, d, start).Err?
            <==> exists j :: 0 <= j < |parts| && parts[j] in reagents && |reagents[parts[j]]| == 0
    ensures PlanParts(target, parts, reagents, d, start).Err? ==>
              PlanParts(target, parts, reagents, d, start).error == NoSourceWells(parts[FirstUndrawable(parts, reagents)])
    decreases |parts|
  {
    if |parts| > 0 {
      var n := |parts|;
      var init := parts[..n - 1];
      PlanPartsFails(target, init, reagents, d, start);
      assert forall j :: 0 <= j < n - 1 ==> init[j] == parts[j];
      if exists j :: 0 <= j < n - 1 && init[j] in reagents && |reagents[init[j]]| == 0 {
        var a, b := FirstUndrawable(parts, reagents), FirstUndrawable(init, reagents);
        assert parts[b] == init[b];
        assert a < n - 1 ==> init[a] == parts[a];
        assert a == b;
      }
    }
  }

  /** build_dispense_rows after its pre-flight check, from a state
      `(rows, u)`: it fails exactly when some reaction fails, at the first
      one, and otherwise appends the reference layout of the load-balanced
      draws. */
  lemma {:induction false} PlanReactionsOutcome(rxs: seq<Reaction>, reagents: map<string, seq<string>>, cfg: Protocol,
                                                rows: seq<Transfer>, u: Usage)
    requires AllDeclared(rxs, reagents)
    ensures PlanReactions(rxs, reagents, cfg, Plan(rows, u)).Err?
            <==> exists i :: 0 <= i < |rxs| && ReactionFails(rxs[i], reagents, cfg)
    ensures PlanReactions(rxs, reagents, cfg, Plan(rows, u)).Err? ==>
              exists i :: 0 <= i < |rxs| && IsFirstFailure(rxs, reagents, cfg, i)
                && PlanReactions(rxs, reagents, cfg, Plan(rows, u)).error == ReactionError(rxs[i], reagents, cfg)
    ensures PlanReactions(rxs, reagents, cfg, Plan(rows, u)).Ok? ==>
              && Drawable(FlatParts(rxs), reagents)
              && PlanReactions(rxs, reagents, cfg, Plan(rows, u)).value
                 == Plan(rows + Layout(rxs, Sources(FlatParts(rxs), reagents, u), cfg),
                         Tally(u, Sources(FlatParts(rxs), reagents, u)))
    decreases |rxs|
  {
    if |rxs| == 0 {
      TallyEmpty(u);
      assert rows + [] == rows;
    } else {
      var n := |rxs|;
      var init, last := rxs[..n - 1], rxs[n - 1];
      assert forall i :: 0 <= i < n - 1 ==> init[i] == rxs[i];
      assert AllDeclared(init, reagents);
      PlanReactionsOutcome(init, reagents, cfg, rows, u);
      var pre := PlanReactions(init, reagents, cfg, Plan(rows, u));
      if pre.Err? {
        var i :| 0 <= i && IsFirstFailure(init, reagents, cfg, i) && pre.error == ReactionError(init[i], reagents, cfg);
        OutcomeEarlierFails(rxs, reagents, cfg, rows, u, i);
      } else if ReactionFails(last, reagents, cfg) {
        OutcomeLastFails(rxs, reagents, cfg, rows, u);
      } else {
        OutcomeLastOk(rxs, reagents, cfg, rows, u);
      }
    }
  }

  /** A failure before the last reaction is the run's failure. */
  lemma OutcomeEarlierFails(rxs: seq<Reaction>, reagents: map<string, seq<string>>, cfg: Protocol,
                            rows: seq<Transfer>, u: Usage, i: nat)
    requires AllDeclared(rxs, reagents) && |rxs| > 0 && AllDeclared(rxs[..|rxs| - 1], reagents)
    requires IsFirstFailure(rxs[..|rxs| - 1], reagents, cfg, i)
    requires PlanReactions(rxs[..|rxs| - 1], reagents, cfg, Plan(rows, u)) == Err(ReactionError(rxs[i], reagents, cfg))
    ensures IsFirstFailure(rxs, reagents, cfg, i)
    ensures PlanReactions(rxs, reagents, cfg, Plan(rows, u)) == Err(ReactionError(rxs[i], reagents, cfg))
  {
    var init := rxs[..|rxs| - 1];
    assert forall j :: 0 <= j <= i ==> rxs[j] == init[j];
  }

  /** With every earlier reaction planned, a failing last reaction is the
      run's first failure. */
  lemma OutcomeLastFails(rxs: seq<Reaction>, reagents: map<string, seq<string>>, cfg: Protocol,
                         rows: seq<Transfer>, u: Usage)
    requires AllDeclared(rxs, reagents) && |rxs| > 0 && AllDeclared(rxs[..|rxs| - 1], reagents)
    requires PlanReactions(rxs[..|rxs| - 1], reagents, cfg, Plan(rows, u)).Ok?
    requires forall i :: 0 <= i < |rxs| - 1 ==> !ReactionFails(rxs[i], reagents, cfg)
    requires ReactionFails(rxs[|rxs| - 1], reagents, cfg)
    ensures IsFirstFailure(rxs, reagents, cfg, |rxs| - 1)
    ensures PlanReactions(rxs, reagents, cfg, Plan(rows, u)) == Err(ReactionError(rxs[|rxs| - 1], reagents, cfg))
  {
    var n := |rxs|;
    var init, last := rxs[..n - 1], rxs[n - 1];
    assert forall j :: 0 <= j < n - 1 ==> rxs[j] == init[j];
    assert PartsDeclared(last.parts, reagents);
    PlanPartsFails(last.target, last.parts, reagents, cfg.partVolume, PlanReactions(init, reagents, cfg, Plan(rows, u)).value);
  }

  /** With every reaction planned, the last block follows the earlier ones
      and its draws continue from the counter they leave. */
  lemma OutcomeLastOk(rxs: seq<Reaction>, reagents: map<string, seq<string>>, cfg: Protocol,
                      rows: seq<Transfer>, u: Usage)
    requires AllDeclared(rxs, reagents) && |rxs| > 0 && AllDeclared(rxs[..|rxs| - 1], reagents)
    requires Drawable(FlatParts(rxs[..|rxs| - 1]), reagents)
    requires PlanReactions(rxs[..|rxs| - 1], reagents, cfg, Plan(rows, u))
             == Ok(Plan(rows + Layout(rxs[..|rxs| - 1], Sources(FlatParts(rxs[..|rxs| - 1]), reagents, u), cfg),
                        Tally(u, Sources(FlatParts(rxs[..|rxs| - 1]), reagents, u))))
    requires forall i :: 0 <= i < |rxs| - 1 ==> !ReactionFails(rxs[i], reagents, cfg)
    requires !ReactionFails(rxs[|rxs| - 1], reagents, cfg)
    ensures forall i :: 0 <= i < |rxs| ==> !ReactionFails(rxs[i], reagents, cfg)
    ensures Drawable(FlatParts(rxs), reagents)
    ensures PlanReactions(rxs, reagents, cfg, Plan(rows, u))
            == Ok(Plan(rows + Layout(rxs, Sources(FlatParts(rxs), reagents, u), cfg),
                       Tally(u, Sources(FlatParts(rxs), reagents, u))))
  {
    var n := |rxs|;
    var init, last := rxs[..n - 1], rxs[n - 1];
    var flat := FlatParts(init);
    var si := Sources(flat, reagents, u);
    var ui := Tally(u, si);
    var li := Layout(init, si, cfg);
    var st := Plan(rows + li, ui);
    assert Drawable(last.parts, reagents) by {
      assert PartsDeclared(last.parts, reagents);
      PlanPartsFails(last.target, last.parts, reagents, cfg.partVolume, st);
    }
    var sl := Sources(last.parts, reagents, ui);
    var blk := Block(last, sl, cfg);
    assert PlanReactions(rxs, reagents, cfg, Plan(rows, u)) == PlanReaction(last, reagents, cfg, st);
    assert PlanReaction(last, reagents, cfg, st) == Ok(Plan((rows + li) + blk, Tally(ui, sl))) by {
      PlanReactionOk(last, reagents, cfg, rows + li, ui);
    }
    assert FlatParts(rxs) == flat + last.parts && Drawable(FlatParts(rxs), reagents) by {
      FlatPartsSnoc(rxs);
      DrawableSplit(flat, last.parts, reagents);
    }
    var s := Sources(FlatParts(rxs), reagents, u);
    assert s == si + sl by {
      SourcesAppend(flat, last.parts, reagents, u);
    }
    assert Tally(ui, sl) == Tally(u, s) by {
      TallyAppend(u, si, sl);
    }
    assert Layout(rxs, s, cfg) == li + blk by {
      assert s[..|flat|] == si && s[|flat|..] == sl;
    }
    assert (rows + li) + blk == rows + (li + blk) by {
      ConcatAssociate(rows, li, blk);
    }
  }

  /** One reaction within the volume budget whose parts all have wells:
      its block is appended and its draws are counted. */
  lemma PlanReactionOk(rx: Reaction, reagents: map<string, seq<string>>, cfg: Protocol, rows: seq<Transfer>, u: Usage)
    requires PartsDeclared(rx.parts, reagents) && Drawable(rx.parts, reagents) && Filler(rx, cfg) >= 0
    ensures PlanReaction(rx, reagents, cfg, Plan(rows, u))
            == Ok(Plan(rows + Block(rx, Sources(rx.parts, reagents, u), cfg), Tally(u, Sources(rx.parts, reagents, u))))
  {
    var s := Sources(rx.parts, reagents, u);
    var pr := PartRecords(rx.target, rx.parts, s, cfg.partVolume);
    PlanPartsOk(rx.target, rx.parts, reagents, cfg.partVolume, rows, u);
    if Filler(rx, cfg) > 0 {
      ConcatAssociate(rows, pr, [Transfer(cfg.fillerWell, rx.target, Filler(rx, cfg), cfg.fillerName)]);
    } else {
      assert Block(rx, s, cfg) == pr;
    }
  }

  /** The planner from an empty state, as build_dispense_rows runs it. */
  lemma PlanOutcome(rxs: seq<Reaction>, reagents: map<string, seq<string>>, cfg: Protocol)
    requires AllDeclared(rxs, reagents)
    ensures PlanReactions(rxs, reagents, cfg, Plan([], map[])).Err?
            <==> exists i :: 0 <= i < |rxs| && ReactionFails(rxs[i], reagents, cfg)
    ensures PlanReactions(rxs, reagents, cfg, Plan([], map[])).Err? ==>
              exists i :: 0 <= i < |rxs| && IsFirstFailure(rxs, reagents, cfg, i)
                && PlanReactions(rxs, reagents, cfg, Plan([], map[])).error == ReactionError(rxs[i], reagents, cfg)
    ensures PlanReactions(rxs, reagents, cfg, Plan([], map[])).Ok? ==>
              && Drawable(FlatParts(rxs), reagents)
              && PlanReactions(rxs, reagents, cfg, Plan([], map[])).value.rows
                 == Layout(rxs, Sources(FlatParts(rxs), reagents, map[]), cfg)
  {
    PlanReactionsOutcome(rxs, reagents, cfg, [], map[]);
    if PlanReactions(rxs, reagents, cfg, Plan([], map[])).Ok? {
      var l := Layout(rxs, Sources(FlatParts(rxs), reagents, map[]), cfg);
      assert [] + l == l;
    }
  }

  // ---- a reagent with several wells is drawn round-robin ----

  predicate Distinct(ws: seq<string>) {
    forall i, j :: 0 <= i < j < |ws| ==> ws[i] != ws[j]
  }

  /** The usage after `q` full rounds over `ws` and `r` more draws. */
  predicate RoundState(ws: seq<string>, u: Usage, q: nat, r: nat) {
    forall k :: 0 <= k < |ws| ==> Uses(u, ws[k]) == q + if k < r then 1 else 0
  }

  /** After `q` rounds and `r` draws, the next draw takes well `r`. */
  lemma RoundLeast(ws: seq<string>, u: Usage, q: nat, r: nat)
    requires r < |ws| && RoundState(ws, u, q, r)
    ensures LeastUsedIndex(ws, u) == r
  {
    var k := LeastUsedIndex(ws, u);
    assert Uses(u, ws[k]) <= Uses(u, ws[r]);
    assert k <= r ==> Uses(u, ws[k]) >= Uses(u, ws[r]);
  }

  /** Drawing well `r` moves to the next round state. */
  lemma RoundBump(ws: seq<string>, u: Usage, q: nat, r: nat)
    requires Distinct(ws) && r < |ws| && RoundState(ws, u, q, r)
    ensures r + 1 < |ws| ==> RoundState(ws, Bump(u, ws[r]), q, r + 1)
    ensures r + 1 == |ws| ==> RoundState(ws, Bump(u, ws[r]), q + 1, 0)
  {
    forall k | 0 <= k < |ws| && k != r
      ensures Uses(Bump(u, ws[r]), ws[k]) == Uses(u, ws[k])
    {
      assert ws[k] != ws[r];
    }
  }

  /** Drawing one more name extends the tally by the well drawn. */
  lemma SourcesTallyStep(names: seq<string>, reagents: map<string, seq<string>>, t: nat)
    requires Drawable(names, reagents) && t < |names|
    ensures Tally(map[], Sources(names, reagents, map[])[..t + 1])
            == Bump(Tally(map[], Sources(names, reagents, map[])[..t]), Sources(names, reagents, map[])[t])
  {
    var s := Sources(names, reagents, map[]);
    assert s[..t + 1][..t] == s[..t];
  }

  /** A run of draws of one reagent. */
  predicate OneReagent(names: seq<string>, reagents: map<string, seq<string>>, name: string) {
    && name in reagents && |reagents[name]| > 0 && Distinct(reagents[name])
    && forall i :: 0 <= i < |names| ==> names[i] == name
  }

  /** Drawing `t = q * |ws| + r` times for a reagent with the distinct
      wells `ws` uses each well `q` times, and the first `r` once more. */
  lemma {:induction false} RoundRobinState(names: seq<string>, reagents: map<string, seq<string>>, name: string, t: nat, q: nat, r: nat)
    requires OneReagent(names, reagents, name)
    requires r < |reagents[name]| && t == q * |reagents[name]| + r && t <= |names|
    ensures Drawable(names, reagents)
    ensures RoundState(reagents[name], Tally(map[], Sources(names, reagents, map[])[..t]), q, r)
    decreases t, 1
  {
    if r > 0 {
      RoundWithin(names, reagents, name, t, q, r);
    } else if q > 0 {
      RoundWrap(names, reagents, name, t, q);
    } else {
      RoundStart(names, reagents, name);
    }
  }

  /** The state after a draw within a round. */
  lemma {:induction false} RoundWithin(names: seq<string>, reagents: map<string, seq<string>>, name: string, t: nat, q: nat, r: nat)
    requires OneReagent(names, reagents, name)
    requires 0 < r < |reagents[name]| && t == q * |reagents[name]| + r && t <= |names|
    ensures Drawable(names, reagents)
    ensures RoundState(reagents[name], Tally(map[], Sources(names, reagents, map[])[..t]), q, r)
    decreases t, 0
  {
    RoundRobinState(names, reagents, name, t - 1, q, r - 1);
    RoundRobinAdvance(names, reagents, name, t - 1, q, r - 1, q, r);
  }

  /** The state after the draw that completes a round. */
  lemma {:induction false} RoundWrap(names: seq<string>, reagents: map<string, seq<string>>, name: string, t: nat, q: nat)
    requires OneReagent(names, reagents, name)
    requires q > 0 && t == q * |reagents[name]| && t <= |names|
    ensures Drawable(names, reagents)
    ensures RoundState(reagents[name], Tally(map[], Sources(names, reagents, map[])[..t]), q, 0)
    decreases t, 0
  {
    var n := |reagents[name]|;
    assert t - 1 == (q - 1) * n + (n - 1) by {
      Distribute(q - 1, n);
    }
    RoundRobinState(names, reagents, name, t - 1, q - 1, n - 1);
    RoundRobinAdvance(names, reagents, name, t - 1, q - 1, n - 1, q, 0);
  }

  /** Before any draw every count is zero. */
  lemma RoundStart(names: seq<string>, reagents: map<string, seq<string>>, name: string)
    requires OneReagent(names, reagents, name)
    ensures Drawable(names, reagents)
    ensures RoundState(reagents[name], Tally(map[], Sources(names, reagents, map[])[..0]), 0, 0)
  {
    assert Sources(names, reagents, map[])[..0] == [];
  }

  lemma Distribute(q: nat, n: nat)
    ensures (q + 1) * n == q * n + n
  {
  }

  /** One draw from round state `(q, r)`: it takes well `r` and moves to
      the next state. */
  lemma RoundRobinAdvance(names: seq<string>, reagents: map<string, seq<string>>, name: string, t: nat, q: nat, r: nat, q2: nat, r2: nat)
    requires OneReagent(names, reagents, name) && Drawable(names, reagents)
    requires r < |reagents[name]| && t < |names|
    requires RoundState(reagents[name], Tally(map[], Sources(names, reagents, map[])[..t]), q, r)
    requires if r + 1 < |reagents[name]| then q2 == q && r2 == r + 1 else q2 == q + 1 && r2 == 0
    ensures Sources(names, reagents, map[])[t] == reagents[name][r]
    ensures RoundState(reagents[name], Tally(map[], Sources(names, reagents, map[])[..t + 1]), q2, r2)
  {
    SourceAt(names, reagents, map[], t);
    SourcesTallyStep(names, reagents, t);
    RoundLeast(reagents[name], Tally(map[], Sources(names, reagents, map[])[..t]), q, r);
    RoundBump(reagents[name], Tally(map[], Sources(names, reagents, map[])[..t]), q, r);
  }

  /** A reagent used again and again, with distinct wells, is drawn from
      its wells in turn: draw `t` takes well `t % n`. */
  lemma RoundRobin(names: seq<string>, reagents: map<string, seq<string>>, name: string, t: nat)
    requires OneReagent(names, reagents, name) && t < |names|
    ensures Drawable(names, reagents)
    ensures Sources(names, reagents, map[])[t] == reagents[name][t % |reagents[name]|]
  {
    var n := |reagents[name]|;
    DivMod(t, n);
    var q, r := t / n, t % n;
    RoundRobinState(names, reagents, name, t, q, r);
    RoundRobinAdvance(names, reagents, name, t, q, r, if r + 1 < n then q else q + 1, if r + 1 < n then r + 1 else 0);
  }
}
