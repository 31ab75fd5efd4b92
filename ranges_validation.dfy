/** `validateRangesFile`, the structural check both versions of
    `RangeRepository` run on a strategy table before accepting it. The
    table is players -> depth -> position -> scenario -> ...; every level
    must be an object (`typeof x === "object" && x !== null`), players nodes
    and position nodes must not be empty, and every child of a scenario
    other than the opening one must be an object too. The two versions
    differ in the name of the opening scenario and in whether scenario
    names are restricted. The first violation met, in `Object.keys` order,
    is the one thrown. */
module RangesValidation {
  import opened Wrappers
  import opened Json

  /** `backend/` (opening scenario `Open`, any scenario name) or `src/`
      (opening scenario `FirstIn`, only FirstIn, VsOpen and VsShove). */
  datatype Dialect = Backend | Legacy

  function Opening(d: Dialect): string {
    match d
    case Backend => "Open"
    case Legacy => "FirstIn"
  }

  predicate AllowedScenario(d: Dialect, k: string) {
    d == Backend || k == "FirstIn" || k == "VsOpen" || k == "VsShove"
  }

  /** The errors thrown, with the keys their messages name. */
  datatype TableError =
    | BadRoot(src: string)
    | BadPlayersNode(players: string)
    | NoDepths(players: string)
    | BadDepthNode(depth: string, players: string)
    | BadPositionNode(position: string, depth: string)
    | UnknownScenario(scenario: string, position: string, depth: string)
    | BadOpeningNode(position: string, depth: string)
    | BadScenarioNode(scenario: string, position: string, depth: string)
    | BadVillainNode(villain: string, scenario: string, position: string, depth: string)
    | NoScenario(position: string, depth: string)

  /** `typeof v === "object" && v !== null` for a value that may be
      `undefined`. */
  predicate IsObjectValue(v: Option<Json>) {
    v.Some? && IsObject(v.value)
  }

  // ---- the checks, level by level, as the loops run them -----------------

  function CheckVillains(sc: string, pos: string, depth: string, node: Json, ks: seq<string>): Outcome<TableError>
  {
    if ks == [] then Pass
    else if !IsObjectValue(Prop(node, ks[0])) then Fail(BadVillainNode(ks[0], sc, pos, depth))
    else CheckVillains(sc, pos, depth, node, ks[1..])
  }

  function CheckScenario(d: Dialect, sc: string, pos: string, depth: string, v: Option<Json>): Outcome<TableError>
  {
    if !AllowedScenario(d, sc) then Fail(UnknownScenario(sc, pos, depth))
    else if sc == Opening(d) then (if IsObjectValue(v) then Pass else Fail(BadOpeningNode(pos, depth)))
    else if !IsObjectValue(v) then Fail(BadScenarioNode(sc, pos, depth))
    else CheckVillains(sc, pos, depth, v.value, OwnKeys(v.value))
  }

  function CheckScenarios(d: Dialect, pos: string, depth: string, node: Json, ks: seq<string>): Outcome<TableError>
  {
    if ks == [] then Pass
    else
      var r := CheckScenario(d, ks[0], pos, depth, Prop(node, ks[0]));
      if r.Fail? then r else CheckScenarios(d, pos, depth, node, ks[1..])
  }

  function CheckPosition(d: Dialect, pos: string, depth: string, v: Option<Json>): Outcome<TableError>
  {
    if !IsObjectValue(v) then Fail(BadPositionNode(pos, depth))
    else
      var ks := OwnKeys(v.value);
      var r := CheckScenarios(d, pos, depth, v.value, ks);
      if r.Fail? then r else if ks == [] then Fail(NoScenario(pos, depth)) else Pass
  }

  function CheckPositions(d: Dialect, depth: string, node: Json, ks: seq<string>): Outcome<TableError>
  {
    if ks == [] then Pass
    else
      var r := CheckPosition(d, ks[0], depth, Prop(node, ks[0]));
      if r.Fail? then r else CheckPositions(d, depth, node, ks[1..])
  }

  function CheckDepth(d: Dialect, depth: string, players: string, v: Option<Json>): Outcome<TableError>
  {
    if !IsObjectValue(v) then Fail(BadDepthNode(depth, players))
    else CheckPositions(d, depth, v.value, OwnKeys(v.value))
  }

  function CheckDepths(d: Dialect, players: string, node: Json, ks: seq<string>): Outcome<TableError>
  {
    if ks == [] then Pass
    else
      var r := CheckDepth(d, ks[0], players, Prop(node, ks[0]));
      if r.Fail? then r else CheckDepths(d, players, node, ks[1..])
  }

  function CheckPlayers(d: Dialect, players: string, v: Option<Json>): Outcome<TableError>
  {
    if !IsObjectValue(v) then Fail(BadPlayersNode(players))
    else if OwnKeys(v.value) == [] then Fail(NoDepths(players))
    else CheckDepths(d, players, v.value, OwnKeys(v.value))
  }

  function CheckRoot(d: Dialect, root: Json, ks: seq<string>): Outcome<TableError>
  {
    if ks == [] then Pass
    else
      var r := CheckPlayers(d, ks[0], Prop(root, ks[0]));
      if r.Fail? then r else CheckRoot(d, root, ks[1..])
  }

  /** The specification of `validateRangesFile(json, src)`. */
  function Validation(d: Dialect, json: Json, src: string): Outcome<TableError>
  {
    if !IsObject(json) then Fail(BadRoot(src)) else CheckRoot(d, json, OwnKeys(json))
  }

  // ---- the loops of `validateRangesFile`, one method per level ---------

  /** The villain loop under a non-opening scenario. */
  method ValidateVillains(sc: string, pos: string, depth: string, node: Json)
    returns (r: Outcome<TableError>)
    ensures r == CheckVillains(sc, pos, depth, node, OwnKeys(node))
  {
    var ks := OwnKeys(node);
    for i := 0 to |ks|
      invariant CheckVillains(sc, pos, depth, node, ks) == CheckVillains(sc, pos, depth, node, ks[i..])
    {
      assert ks[i..][1..] == ks[i + 1..];
      var vNode := Prop(node, ks[i]);
      if !IsObjectValue(vNode) {
        return Fail(BadVillainNode(ks[i], sc, pos, depth));
      }
    }
    return Pass;
  }

  /** The body of the scenario loop for one scenario key. */
  method ValidateScenarioNode(d: Dialect, sc: string, pos: string, depth: string, scNode: Option<Json>)
    returns (r: Outcome<TableError>)
    ensures r == CheckScenario(d, sc, pos, depth, scNode)
  {
    if !AllowedScenario(d, sc) {
      return Fail(UnknownScenario(sc, pos, depth));
    }
    if sc == Opening(d) {
      if !IsObjectValue(scNode) {
        return Fail(BadOpeningNode(pos, depth));
      }
      return Pass;
    }
    if !IsObjectValue(scNode) {
      return Fail(BadScenarioNode(sc, pos, depth));
    }
    r := ValidateVillains(sc, pos, depth, scNode.value);
  }

  /** The scenario loop with its `hasAny` flag. */
  method ValidatePositionNode(d: Dialect, pos: string, depth: string, posNode: Option<Json>)
    returns (r: Outcome<TableError>)
    ensures r == CheckPosition(d, pos, depth, posNode)
  {
    if !IsObjectValue(posNode) {
      return Fail(BadPositionNode(pos, depth));
    }
    var node := posNode.value;
    var ks := OwnKeys(node);
    var hasAny := false;
    for i := 0 to |ks|
      invariant hasAny <==> i > 0
      invariant CheckScenarios(d, pos, depth, node, ks) == CheckScenarios(d, pos, depth, node, ks[i..])
    {
      assert ks[i..][1..] == ks[i + 1..];
      hasAny := true;
      var o := ValidateScenarioNode(d, ks[i], pos, depth, Prop(node, ks[i]));
      if o.Fail? {
        return o;
      }
    }
    if !hasAny {
      return Fail(NoScenario(pos, depth));
    }
    return Pass;
  }

  /** The position loop. */
  method ValidateDepthNode(d: Dialect, depth: string, players: string, depthNode: Option<Json>)
    returns (r: Outcome<TableError>)
    ensures r == CheckDepth(d, depth, players, depthNode)
  {
    if !IsObjectValue(depthNode) {
      return Fail(BadDepthNode(depth, players));
    }
    var node := depthNode.value;
    var ks := OwnKeys(node);
    for i := 0 to |ks|
      invariant CheckPositions(d, depth, node, ks) == CheckPositions(d, depth, node, ks[i..])
    {
      assert ks[i..][1..] == ks[i + 1..];
      var o := ValidatePositionNode(d, ks[i], depth, Prop(node, ks[i]));
      if o.Fail? {
        return o;
      }
    }
    return Pass;
  }

  /** The depth loop. */
  method ValidatePlayersNode(d: Dialect, players: string, playersNode: Option<Json>)
    returns (r: Outcome<TableError>)
    ensures r == CheckPlayers(d, players, playersNode)
  {
    if !IsObjectValue(playersNode) {
      return Fail(BadPlayersNode(players));
    }
    var node := playersNode.value;
    var ks := OwnKeys(node);
    if |ks| == 0 {
      return Fail(NoDepths(players));
    }
    for i := 0 to |ks|
      invariant CheckDepths(d, players, node, ks) == CheckDepths(d, players, node, ks[i..])
    {
      assert ks[i..][1..] == ks[i + 1..];
      var o := ValidateDepthNode(d, ks[i], players, Prop(node, ks[i]));
      if o.Fail? {
        return o;
      }
    }
    return Pass;
  }

  /** `validateRangesFile(json, src)`: the players loop. */
  method ValidateRangesFile(d: Dialect, json: Json, src: string) returns (r: Outcome<TableError>)
    ensures r == Validation(d, json, src)
  {
    if !IsObject(json) {
      return Fail(BadRoot(src));
    }
    var ks := OwnKeys(json);
    for i := 0 to |ks|
      invariant CheckRoot(d, json, ks) == CheckRoot(d, json, ks[i..])
    {
      CheckRootStep(d, json, ks, i);
      var o := ValidatePlayersNode(d, ks[i], Prop(json, ks[i]));
      if o.Fail? {
        return o;
      }
    }
    assert ks[|ks|..] == [];
    return Pass;
  }

  lemma CheckRootStep(d: Dialect, json: Json, ks: seq<string>, i: nat)
    requires i < |ks|
    ensures var r := CheckPlayers(d, ks[i], Prop(json, ks[i]));
      CheckRoot(d, json, ks[i..]) == if r.Fail? then r else CheckRoot(d, json, ks[i + 1..])
  {
    assert ks[i..][1..] == ks[i + 1..];
  }

  // ---- the same checks, declaratively ------------------------------------

  predicate VillainsOk(node: Json) {
    forall k :: k in OwnKeys(node) ==> IsObjectValue(Prop(node, k))
  }

  predicate ScenarioOk(d: Dialect, sc: string, v: Option<Json>) {
    AllowedScenario(d, sc) && IsObjectValue(v) && (sc != Opening(d) ==> VillainsOk(v.value))
  }

  predicate PositionOk(d: Dialect, v: Option<Json>) {
    IsObjectValue(v) && OwnKeys(v.value) != []
    && forall k :: k in OwnKeys(v.value) ==> ScenarioOk(d, k, Prop(v.value, k))
  }

  predicate DepthOk(d: Dialect, v: Option<Json>) {
    IsObjectValue(v) && forall k :: k in OwnKeys(v.value) ==> PositionOk(d, Prop(v.value, k))
  }

  predicate PlayersOk(d: Dialect, v: Option<Json>) {
    IsObjectValue(v) && OwnKeys(v.value) != []
    && forall k :: k in OwnKeys(v.value) ==> DepthOk(d, Prop(v.value, k))
  }

  /** A table the loader accepts: every level an object, no empty players
      or position node, every scenario allowed and an object, and every
      child of a scenario other than the opening one an object. */
  predicate WellFormedTable(d: Dialect, json: Json) {
    IsObject(json) && forall k :: k in OwnKeys(json) ==> PlayersOk(d, Prop(json, k))
  }

  lemma {:induction false} CheckVillainsPass(sc: string, pos: string, depth: string, node: Json, ks: seq<string>)
    ensures CheckVillains(sc, pos, depth, node, ks).Pass?
      <==> forall k :: k in ks ==> IsObjectValue(Prop(node, k))
  {
    if ks != [] {
      CheckVillainsPass(sc, pos, depth, node, ks[1..]);
      assert forall k :: k in ks <==> k == ks[0] || k in ks[1..];
    }
  }

  lemma CheckScenarioPass(d: Dialect, sc: string, pos: string, depth: string, v: Option<Json>)
    ensures CheckScenario(d, sc, pos, depth, v).Pass? <==> ScenarioOk(d, sc, v)
  {
    if AllowedScenario(d, sc) && sc != Opening(d) && IsObjectValue(v) {
      CheckVillainsPass(sc, pos, depth, v.value, OwnKeys(v.value));
    }
  }

  lemma {:induction false} CheckScenariosPass(d: Dialect, pos: string, depth: string, node: Json, ks: seq<string>)
    ensures CheckScenarios(d, pos, depth, node, ks).Pass?
      <==> forall k :: k in ks ==> ScenarioOk(d, k, Prop(node, k))
  {
    if ks != [] {
      CheckScenarioPass(d, ks[0], pos, depth, Prop(node, ks[0]));
      CheckScenariosPass(d, pos, depth, node, ks[1..]);
      assert forall k :: k in ks <==> k == ks[0] || k in ks[1..];
    }
  }

  lemma CheckPositionPass(d: Dialect, pos: string, depth: string, v: Option<Json>)
    ensures CheckPosition(d, pos, depth, v).Pass? <==> PositionOk(d, v)
  {
    if IsObjectValue(v) {
      CheckScenariosPass(d, pos, depth, v.value, OwnKeys(v.value));
    }
  }

  lemma {:induction false} CheckPositionsPass(d: Dialect, depth: string, node: Json, ks: seq<string>)
    ensures CheckPositions(d, depth, node, ks).Pass? <==> forall k :: k in ks ==> PositionOk(d, Prop(node, k))
  {
    if ks != [] {
      CheckPositionPass(d, ks[0], depth, Prop(node, ks[0]));
      CheckPositionsPass(d, depth, node, ks[1..]);
      assert forall k :: k in ks <==> k == ks[0] || k in ks[1..];
    }
  }

  lemma CheckDepthPass(d: Dialect, depth: string, players: string, v: Option<Json>)
    ensures CheckDepth(d, depth, players, v).Pass? <==> DepthOk(d, v)
  {
    if IsObjectValue(v) {
      CheckPositionsPass(d, depth, v.value, OwnKeys(v.value));
    }
  }

  lemma {:induction false} CheckDepthsPass(d: Dialect, players: string, node: Json, ks: seq<string>)
    ensures CheckDepths(d, players, node, ks).Pass? <==> forall k :: k in ks ==> DepthOk(d, Prop(node, k))
  {
    if ks != [] {
      CheckDepthPass(d, ks[0], players, Prop(node, ks[0]));
      CheckDepthsPass(d, players, node, ks[1..]);
      assert forall k :: k in ks <==> k == ks[0] || k in ks[1..];
    }
  }

  lemma CheckPlayersPass(d: Dialect, players: string, v: Option<Json>)
    ensures CheckPlayers(d, players, v).Pass? <==> PlayersOk(d, v)
  {
    if IsObjectValue(v) {
      CheckDepthsPass(d, players, v.value, OwnKeys(v.value));
    }
  }

  lemma {:induction false} CheckRootPass(d: Dialect, root: Json, ks: seq<string>)
    ensures CheckRoot(d, root, ks).Pass? <==> forall k :: k in ks ==> PlayersOk(d, Prop(root, k))
  {
    if ks != [] {
      CheckPlayersPass(d, ks[0], Prop(root, ks[0]));
      CheckRootPass(d, root, ks[1..]);
      assert forall k :: k in ks <==> k == ks[0] || k in ks[1..];
    }
  }

  /** The loader accepts exactly the well-formed tables. */
  lemma ValidationPassIff(d: Dialect, json: Json, src: string)
    ensures Validation(d, json, src).Pass? <==> WellFormedTable(d, json)
  {
    if IsObject(json) {
      CheckRootPass(d, json, OwnKeys(json));
    }
  }

  /** The scenario node reached from the root through players, depth,
      position and scenario keys. */
  predicate ScenarioAt(json: Json, p: string, dk: string, pos: string, sc: string, scNode: Json) {
    Prop(json, p).Some? && Prop(Prop(json, p).value, dk).Some?
    && Prop(Prop(Prop(json, p).value, dk).value, pos).Some?
    && Prop(Prop(Prop(Prop(json, p).value, dk).value, pos).value, sc) == Some(scNode)
  }

  /** What a well-formed table says about any scenario node in it. */
  lemma ScenarioOfWellFormed(d: Dialect, json: Json, p: string, dk: string, pos: string, sc: string, scNode: Json)
    requires WellFormedTable(d, json) && ScenarioAt(json, p, dk, pos, sc, scNode)
    ensures ScenarioOk(d, sc, Some(scNode))
  {
    var pn := Prop(json, p).value;
    OwnKeysMembership(json, p);
    var dn := Prop(pn, dk).value;
    OwnKeysMembership(pn, dk);
    var posNode := Prop(dn, pos).value;
    OwnKeysMembership(dn, pos);
    OwnKeysMembership(posNode, sc);
  }

  /** A non-object directly under a scenario other than the opening one (a
      hand mapped straight to a string, say) makes the whole table
      rejected, although `find` has a branch for such a direct mapping. */
  lemma NonObjectUnderScenarioRejected(d: Dialect, json: Json, src: string,
                                        p: string, dk: string, pos: string, sc: string, scNode: Json, h: string)
    requires ScenarioAt(json, p, dk, pos, sc, scNode) && sc != Opening(d)
    requires Prop(scNode, h).Some? && !IsObject(Prop(scNode, h).value)
    ensures Validation(d, json, src).Fail?
  {
    ValidationPassIff(d, json, src);
    if WellFormedTable(d, json) {
      ScenarioOfWellFormed(d, json, p, dk, pos, sc, scNode);
      OwnKeysMembership(scNode, h);
    }
  }

  /** The older loader rejects any scenario name but FirstIn, VsOpen and
      VsShove. */
  lemma LegacyRejectsUnknownScenario(json: Json, src: string,
                                     p: string, dk: string, pos: string, sc: string, scNode: Json)
    requires ScenarioAt(json, p, dk, pos, sc, scNode)
    requires sc != "FirstIn" && sc != "VsOpen" && sc != "VsShove"
    ensures Validation(Legacy, json, src).Fail?
  {
    ValidationPassIff(Legacy, json, src);
    if WellFormedTable(Legacy, json) {
      ScenarioOfWellFormed(Legacy, json, p, dk, pos, sc, scNode);
    }
  }
}
