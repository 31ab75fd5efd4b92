/** The `RangeRepository` of the backend: a validated strategy table, held
    read-only, and the lookups over it. Its opening scenario is `Open`; any
    other scenario is looked up per villain seat first and as a direct
    hand -> value map second. */
module BackendRanges {
  import opened Wrappers
  import JsNumber
  import opened Json
  import opened Seats
  import DepthKeys
  import opened RangesValidation

  class RangeRepository {
    /** The table, never modified after construction. */
    const data: Json

    /** Every repository holds a table the loader accepted. */
    predicate Valid() {
      WellFormedTable(Backend, data)
    }

    /** The private constructor, only reached after validation. */
    constructor(data: Json)
      requires WellFormedTable(Backend, data)
      ensures this.data == data && Valid()
    {
      this.data := data;
    }

    /** `fromObject(obj)`: validate an uploaded table, then wrap it. */
    static method FromObject(obj: Json) returns (r: Result<RangeRepository, TableError>)
      ensures r.Success? <==> WellFormedTable(Backend, obj)
      ensures r.Success? ==> fresh(r.value) && r.value.data == obj
      ensures r.Failure? ==> Fail(r.error) == Validation(Backend, obj, "<uploaded>")
    {
      var o := ValidateRangesFile(Backend, obj, "<uploaded>");
      ValidationPassIff(Backend, obj, "<uploaded>");
      if o.Fail? {
        return Failure(o.error);
      }
      var repo := new RangeRepository(obj);
      return Success(repo);
    }

    /** `getPositionNode`: the seat node at the depth nearest to `depth`. */
    function GetPositionNode(players: PlayersCount, depth: int, heroPos: Position): (r: Option<Json>)
      ensures r.Some? ==> Prop(data, JsNumber.IntToString(players)).Some?
    {
      var pNode := OptChain(Some(data), JsNumber.IntToString(players));
      if !Truthy(pNode) then None
      else
        var dKey := DepthKeys.ClosestDepthKeyOf(pNode.value, depth);
        if dKey.None? then None
        else
          var dNode := OptChain(pNode, dKey.value);
          if !Truthy(dNode) then None
          else OptChain(dNode, heroPos.Name())
    }

    /** `find`: the value stored for a hand, or `None` for `undefined`. */
    function Find(players: PlayersCount, depth: int, heroPos: Position, scenario: string,
                  handLabel: string, villainPos: Option<Position>): (r: Option<Json>)
      ensures r.Some? ==> Prop(data, JsNumber.IntToString(players)).Some?
    {
      // the source writes the descent to the seat node out again; it is
      // the one of `getPositionNode`, which the model reuses
      var hNode := GetPositionNode(players, depth, heroPos);
      if !Truthy(hNode) then None
      else if scenario == "Open" then OptChain(OptChain(hNode, "Open"), handLabel)
      else
        var sNode := OptChain(hNode, scenario);
        if !Truthy(sNode) then None
        else if villainPos.Some? && Truthy(Prop(sNode.value, villainPos.value.Name())) then
          OptChain(Prop(sNode.value, villainPos.value.Name()), handLabel)
        else if Prop(sNode.value, handLabel).Some? then Prop(sNode.value, handLabel)
        else None
    }
  }

  /** `find` descends through the very seat node `getPositionNode` returns,
      at the same chosen depth, and then: `Open` is a plain hand -> value
      map; any other scenario is tried per villain seat when that entry is
      truthy, then as a direct hand -> value map. */
  lemma FindThroughPositionNode(repo: RangeRepository, players: PlayersCount, depth: int, heroPos: Position,
                                scenario: string, handLabel: string, villainPos: Option<Position>)
    requires Truthy(repo.GetPositionNode(players, depth, heroPos))
    ensures var hNode := repo.GetPositionNode(players, depth, heroPos).value;
      var r := repo.Find(players, depth, heroPos, scenario, handLabel, villainPos);
      && (scenario == "Open" ==> r == OptChain(Prop(hNode, "Open"), handLabel))
      && (scenario != "Open" && !Truthy(Prop(hNode, scenario)) ==> r.None?)
      && (scenario != "Open" && Truthy(Prop(hNode, scenario)) ==>
           var sNode := Prop(hNode, scenario).value;
           if villainPos.Some? && Truthy(Prop(sNode, villainPos.value.Name()))
           then r == OptChain(Prop(sNode, villainPos.value.Name()), handLabel)
           else r == Prop(sNode, handLabel))
  {
    var hNode := repo.GetPositionNode(players, depth, heroPos);
    var r := repo.Find(players, depth, heroPos, scenario, handLabel, villainPos);
    assert OptChain(hNode, scenario) == Prop(hNode.value, scenario);
    if scenario == "Open" {
      assert r == OptChain(OptChain(hNode, "Open"), handLabel);
    } else if Truthy(Prop(hNode.value, scenario)) {
      var sNode := Prop(hNode.value, scenario).value;
      if villainPos.Some? && Truthy(Prop(sNode, villainPos.value.Name())) {
        assert r == OptChain(Prop(sNode, villainPos.value.Name()), handLabel);
      } else {
        assert r == (if Prop(sNode, handLabel).Some? then Prop(sNode, handLabel) else None);
      }
    }
  }

  /** For `Open`, the villain seat plays no part. */
  lemma OpenIgnoresVillain(repo: RangeRepository, players: PlayersCount, depth: int, heroPos: Position,
                           handLabel: string, v1: Option<Position>, v2: Option<Position>)
    ensures repo.Find(players, depth, heroPos, "Open", handLabel, v1)
         == repo.Find(players, depth, heroPos, "Open", handLabel, v2)
  {
  }

  /** No players node, no numeric depth key, no node at the chosen key or
      no seat node: every lookup misses, with no default. */
  lemma MissingLevelMisses(repo: RangeRepository, players: PlayersCount, depth: int, heroPos: Position,
                           scenario: string, handLabel: string, villainPos: Option<Position>)
    requires !Truthy(repo.GetPositionNode(players, depth, heroPos))
    ensures repo.Find(players, depth, heroPos, scenario, handLabel, villainPos).None?
  {
  }

  /** `getPositionNode` reads the hero's entry in the node under the key
      `closestDepthKey` picks, which is `String` of the numeric key
      nearest to `depth` (see `DepthKeys.ClosestDepthKeyNearest`); it
      misses exactly when the players node is falsy, no key of it reads
      as a number, or the node under the chosen key is falsy, and
      otherwise it is whatever that node holds for the seat. */
  lemma PositionNodeAtNearestDepth(repo: RangeRepository, players: PlayersCount, depth: int, heroPos: Position)
    ensures var pNode := Prop(repo.data, JsNumber.IntToString(players));
      var r := repo.GetPositionNode(players, depth, heroPos);
      if !Truthy(pNode) then r.None?
      else
        var ds := DepthKeys.NumericKeys(OwnKeys(pNode.value));
        if ds == [] then r.None?
        else
          var dNode := Prop(pNode.value, JsNumber.IntToString(DepthKeys.Closest(ds, depth)));
          if !Truthy(dNode) then r.None?
          else r == Prop(dNode.value, heroPos.Name())
  {
    var pk := JsNumber.IntToString(players);
    var pNode := Prop(repo.data, pk);
    assert OptChain(Some(repo.data), pk) == pNode;
    if Truthy(pNode) {
      DepthKeys.ClosestDepthKeyValue(pNode.value, depth);
      var ds := DepthKeys.NumericKeys(OwnKeys(pNode.value));
      if ds != [] {
        var dKey := JsNumber.IntToString(DepthKeys.Closest(ds, depth));
        assert DepthKeys.ClosestDepthKeyOf(pNode.value, depth) == Some(dKey);
        var dNode := Prop(pNode.value, dKey);
        assert OptChain(pNode, dKey) == dNode;
        if Truthy(dNode) {
          assert OptChain(dNode, heroPos.Name()) == Prop(dNode.value, heroPos.Name());
        }
      }
    }
  }

  /** In a table the loader accepted, a seat node that is found is an
      object. */
  lemma PositionNodeOfValid(repo: RangeRepository, players: PlayersCount, depth: int, heroPos: Position)
    requires repo.Valid() && repo.GetPositionNode(players, depth, heroPos).Some?
    ensures IsObject(repo.GetPositionNode(players, depth, heroPos).value)
  {
    var pk := JsNumber.IntToString(players);
    var pNode := Prop(repo.data, pk).value;
    OwnKeysMembership(repo.data, pk);
    var dKey := DepthKeys.ClosestDepthKeyOf(pNode, depth).value;
    OwnKeysMembership(pNode, dKey);
    var dNode := Prop(pNode, dKey).value;
    OwnKeysMembership(dNode, heroPos.Name());
  }

  lemma NoTenKey(seat: Json)
    ensures Prop(JObj([("10.0", seat)]), "10").None?
  {
    var f := [("10.0", seat)];
    assert f[0].0 != "10" by {
      assert |f[0].0| == 4;
    }
    assert f[..0] == [];
    assert LastValue(f[..0], "10").None?;
  }

  /** When the key chosen for the nearest depth is not itself a key of the
      players node, every lookup misses. */
  lemma RekeyedDepthMisses(repo: RangeRepository, players: PlayersCount, depth: int, heroPos: Position,
                           scenario: string, handLabel: string, villainPos: Option<Position>)
    requires Truthy(Prop(repo.data, JsNumber.IntToString(players)))
    requires var pNode := Prop(repo.data, JsNumber.IntToString(players)).value;
      var dKey := DepthKeys.ClosestDepthKeyOf(pNode, depth);
      dKey.Some? && Prop(pNode, dKey.value).None?
    ensures repo.GetPositionNode(players, depth, heroPos).None?
    ensures repo.Find(players, depth, heroPos, scenario, handLabel, villainPos).None?
  {
    var pNode := OptChain(Some(repo.data), JsNumber.IntToString(players));
    assert pNode == Prop(repo.data, JsNumber.IntToString(players));
    var dKey := DepthKeys.ClosestDepthKeyOf(pNode.value, depth);
    assert OptChain(pNode, dKey.value).None?;
    assert repo.GetPositionNode(players, depth, heroPos).None?;
  }

  /** A depth stored as "10.0" reads as 10, is written back as "10", and so
      is never found: a table {"2": {"10.0": ...}} answers nothing. */
  lemma NonCanonicalDepthKeyMisses(repo: RangeRepository, seat: Json, depth: int, heroPos: Position,
                                   scenario: string, handLabel: string, villainPos: Option<Position>)
    requires Prop(repo.data, "2") == Some(JObj([("10.0", seat)]))
    ensures repo.Find(2, depth, heroPos, scenario, handLabel, villainPos).None?
  {
    DepthKeys.TenPointZeroBecomesTen(seat, depth);
    NoTenKey(seat);
    assert JsNumber.IntToString(2) == "2";
    RekeyedDepthMisses(repo, 2, depth, heroPos, scenario, handLabel, villainPos);
  }

  /** A depth stored as ".0" reads as 0; at depth 5 it beats a depth 12
      and is written back as "0", so a table {"2": {"12": ..., ".0": ...}}
      answers nothing there. */
  lemma PointZeroDepthKeyMisses(repo: RangeRepository, y: Json, z: Json, heroPos: Position,
                                scenario: string, handLabel: string, villainPos: Option<Position>)
    requires Prop(repo.data, "2") == Some(JObj([("12", y), (".0", z)]))
    ensures repo.Find(2, 5, heroPos, scenario, handLabel, villainPos).None?
  {
    DepthKeys.PointZeroKeyIsNearest(y, z);
    assert JsNumber.IntToString(2) == "2";
    RekeyedDepthMisses(repo, 2, 5, heroPos, scenario, handLabel, villainPos);
  }
}
