/** The `RangeRepository` of the first version: a validated strategy table,
    held read-only, and the lookups over it. Its opening scenario is
    `FirstIn`; any other scenario needs a villain seat and is looked up
    per villain seat only. */
module LegacyRanges {
  import opened Wrappers
  import JsNumber
  import opened Json
  import opened Seats
  import DepthKeys
  import opened RangesValidation

  class RangeRepository {
    /** The table, never modified after construction. */
    const data: Json

    /** Every repository holds a table the loader accepted. */
    predicate Valid() {
      WellFormedTable(Legacy, data)
    }

    /** The private constructor, only reached after validation. */
    constructor(data: Json)
      requires WellFormedTable(Legacy, data)
      ensures this.data == data && Valid()
    {
      this.data := data;
    }

    /** `fromFile`, from the point where the file at `absPath` has been read
        and parsed into `json`: validate it, then wrap it. */
    static method FromFile(absPath: string, json: Json) returns (r: Result<RangeRepository, TableError>)
      ensures r.Success? <==> WellFormedTable(Legacy, json)
      ensures r.Success? ==> fresh(r.value) && r.value.data == json
      ensures r.Failure? ==> Fail(r.error) == Validation(Legacy, json, absPath)
    {
      var o := ValidateRangesFile(Legacy, json, absPath);
      ValidationPassIff(Legacy, json, absPath);
      if o.Fail? {
        return Failure(o.error);
      }
      var repo := new RangeRepository(json);
      return Success(repo);
    }

    /** `getPositionNode`: the seat node at the depth nearest to `depth`. */
    function GetPositionNode(players: PlayersCount, depth: int, heroPos: Position): (r: Option<Json>)
      ensures r.Some? ==> Prop(data, JsNumber.IntToString(players)).Some?
    {
      var pNode := OptChain(Some(data), JsNumber.IntToString(players));
      if !Truthy(pNode) then None
      else
        var dKey := DepthKeys.ClosestDepthKeyOf(pNode.value, depth);
        if dKey.None? then None
        else
          var dNode := OptChain(pNode, dKey.value);
          if !Truthy(dNode) then None
          else OptChain(dNode, heroPos.Name())
    }

    /** `find`: the value stored for a hand, or `None` for `undefined`. */
    function Find(players: PlayersCount, depth: int, heroPos: Position, scenario: string,
                  handLabel: string, villainPos: Option<Position>): (r: Option<Json>)
      ensures r.Some? ==> Prop(data, JsNumber.IntToString(players)).Some?
    {
      // the source writes the descent to the seat node out again; it is
      // the one of `getPositionNode`, which the model reuses
      var hNode := GetPositionNode(players, depth, heroPos);
      if !Truthy(hNode) then None
      else if scenario == "FirstIn" then OptChain(OptChain(hNode, "FirstIn"), handLabel)
      else
        var sNode := OptChain(hNode, scenario);
        if !Truthy(sNode) || villainPos.None? then None
        else OptChain(OptChain(sNode, villainPos.value.Name()), handLabel)
    }
  }

  /** `find` descends through the very seat node `getPositionNode` returns,
      at the same chosen depth, and then: `FirstIn` is a plain hand -> value
      map; any other scenario is a villain seat -> (hand -> value) map and
      needs a villain seat. */
  lemma FindThroughPositionNode(repo: RangeRepository, players: PlayersCount, depth: int, heroPos: Position,
                                scenario: string, handLabel: string, villainPos: Option<Position>)
    requires Truthy(repo.GetPositionNode(players, depth, heroPos))
    ensures var hNode := repo.GetPositionNode(players, depth, heroPos).value;
      var r := repo.Find(players, depth, heroPos, scenario, handLabel, villainPos);
      && (scenario == "FirstIn" ==> r == OptChain(Prop(hNode, "FirstIn"), handLabel))
      && (scenario != "FirstIn" && (!Truthy(Prop(hNode, scenario)) || villainPos.None?) ==> r.None?)
      && (scenario != "FirstIn" && Truthy(Prop(hNode, scenario)) && villainPos.Some? ==>
           r == OptChain(Prop(Prop(hNode, scenario).value, villainPos.value.Name()), handLabel))
  {
    var hNode := repo.GetPositionNode(players, depth, heroPos);
    var r := repo.Find(players, depth, heroPos, scenario, handLabel, villainPos);
    assert OptChain(hNode, scenario) == Prop(hNode.value, scenario);
    if scenario == "FirstIn" {
      assert r == OptChain(OptChain(hNode, "FirstIn"), handLabel);
    } else if Truthy(Prop(hNode.value, scenario)) && villainPos.Some? {
      var sNode := Prop(hNode.value, scenario).value;
      assert r == OptChain(Prop(sNode, villainPos.value.Name()), handLabel);
    }
  }

  /** For `FirstIn`, the villain seat plays no part. */
  lemma FirstInIgnoresVillain(repo: RangeRepository, players: PlayersCount, depth: int, heroPos: Position,
                              handLabel: string, v1: Option<Position>, v2: Option<Position>)
    ensures repo.Find(players, depth, heroPos, "FirstIn", handLabel, v1)
         == repo.Find(players, depth, heroPos, "FirstIn", handLabel, v2)
  {
  }

  /** Any scenario other than `FirstIn` misses when no villain seat is given. */
  lemma NoVillainMisses(repo: RangeRepository, players: PlayersCount, depth: int, heroPos: Position,
                        scenario: string, handLabel: string)
    requires scenario != "FirstIn"
    ensures repo.Find(players, depth, heroPos, scenario, handLabel, None).None?
  {
  }

  /** No players node, no numeric depth key, no node at the chosen key or
      no seat node: every lookup misses. */
  lemma MissingLevelMisses(repo: RangeRepository, players: PlayersCount, depth: int, heroPos: Position,
                           scenario: string, handLabel: string, villainPos: Option<Position>)
    requires !Truthy(repo.GetPositionNode(players, depth, heroPos))
    ensures repo.Find(players, depth, heroPos, scenario, handLabel, villainPos).None?
  {
  }

  /** `getPositionNode` reads the hero's entry in the node under the key
      `closestDepthKey` picks, which is `String` of the numeric key
      nearest to `depth` (see `DepthKeys.ClosestDepthKeyNearest`); it
      misses exactly when the players node is falsy, no key of it reads
      as a number, or the node under the chosen key is falsy, and
      otherwise it is whatever that node holds for the seat. */
  lemma PositionNodeAtNearestDepth(repo: RangeRepository, players: PlayersCount, depth: int, heroPos: Position)
    ensures var pNode := Prop(repo.data, JsNumber.IntToString(players));
      var r := repo.GetPositionNode(players, depth, heroPos);
      if !Truthy(pNode) then r.None?
      else
        var ds := DepthKeys.NumericKeys(OwnKeys(pNode.value));
        if ds == [] then r.None?
        else
          var dNode := Prop(pNode.value, JsNumber.IntToString(DepthKeys.Closest(ds, depth)));
          if !Truthy(dNode) then r.None?
          else r == Prop(dNode.value, heroPos.Name())
  {
    var pk := JsNumber.IntToString(players);
    var pNode := Prop(repo.data, pk);
    assert OptChain(Some(repo.data), pk) == pNode;
    if Truthy(pNode) {
      DepthKeys.ClosestDepthKeyValue(pNode.value, depth);
      var ds := DepthKeys.NumericKeys(OwnKeys(pNode.value));
      if ds != [] {
        var dKey := JsNumber.IntToString(DepthKeys.Closest(ds, depth));
        assert DepthKeys.ClosestDepthKeyOf(pNode.value, depth) == Some(dKey);
        var dNode := Prop(pNode.value, dKey);
        assert OptChain(pNode, dKey) == dNode;
        if Truthy(dNode) {
          assert OptChain(dNode, heroPos.Name()) == Prop(dNode.value, heroPos.Name());
        }
      }
    }
  }

  /** In a table the loader accepted, a seat node that is found is an
      object. */
  lemma PositionNodeOfValid(repo: RangeRepository, players: PlayersCount, depth: int, heroPos: Position)
    requires repo.Valid() && repo.GetPositionNode(players, depth, heroPos).Some?
    ensures IsObject(repo.GetPositionNode(players, depth, heroPos).value)
  {
    var pk := JsNumber.IntToString(players);
    var pNode := Prop(repo.data, pk).value;
    OwnKeysMembership(repo.data, pk);
    var dKey := DepthKeys.ClosestDepthKeyOf(pNode, depth).value;
    OwnKeysMembership(pNode, dKey);
    var dNode := Prop(pNode, dKey).value;
    OwnKeysMembership(dNode, heroPos.Name());
  }
}
