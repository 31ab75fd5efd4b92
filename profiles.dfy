/** The profile check of the backend's maintenance script: a profile table
    is compared with the template table level by level (players, depth,
    seat, scenario, then villain seat) and every key the template has and
    the profile lacks, or the reverse, is reported. Leaf values are never
    compared. */
module Profiles {
  import opened Wrappers
  import opened Json
  import RangesValidation

  /** The four levels whose keys are compared both ways. */
  datatype Level = PlayersLevel | DepthLevel | PositionLevel | ScenarioLevel {
    function Rank(): nat {
      match this
      case PlayersLevel => 0
      case DepthLevel => 1
      case PositionLevel => 2
      case ScenarioLevel => 3
    }
  }

  /** One reported problem; `at` is the chain of keys above the key named. */
  datatype Issue =
    | Missing(level: Level, key: string, at: seq<string>)
    | Extra(level: Level, key: string, at: seq<string>)
    | MissingVillain(villain: string, scenario: string, at: seq<string>)
    | NotAnObject(scenario: string, at: seq<string>)

  /** The `TypeError`s the comparison can throw on a malformed tree:
      `Object.keys` of null, and `in` on a value that is not an object. */
  datatype ProfileError = KeysOfNull | InOnNonObject(key: string)

  function JoinPath(at: seq<string>): string {
    if at == [] then "" else if |at| == 1 then at[0] else at[0] + "/" + JoinPath(at[1..])
  }

  /** The text pushed for each issue. */
  function Message(i: Issue): string {
    match i
    case Missing(PlayersLevel, k, _) => "Missing players key: " + k
    case Missing(DepthLevel, k, at) => "Missing depth " + k + " under players " + JoinPath(at)
    case Missing(PositionLevel, k, at) => "Missing position " + k + " under players " + JoinPath(at)
    case Missing(ScenarioLevel, k, at) => "Missing scenario " + k + " under " + JoinPath(at)
    case MissingVillain(v, sc, at) => "Missing villain " + v + " under scenario " + sc + " at " + JoinPath(at)
    case NotAnObject(sc, at) =>
      "Scenario " + sc + " at " + JoinPath(at) + " should be an object (hand->value mapping)"
    case Extra(ScenarioLevel, k, at) => "Extra scenario " + k + " present in profile under " + JoinPath(at)
    case Extra(PositionLevel, k, at) => "Extra position " + k + " present under " + JoinPath(at)
    case Extra(DepthLevel, k, at) => "Extra depth " + k + " present under players " + JoinPath(at)
    case Extra(PlayersLevel, k, _) => "Extra players key " + k + " present in profile"
  }

  // ---- the JavaScript operations the script applies -----------------------

  predicate IsVillainKey(k: string) {
    k == "BTN" || k == "SB" || k == "BB"
  }

  /** `keys.filter(isVillainKey)`. */
  function VillainKeys(ks: seq<string>): (r: seq<string>)
    ensures forall k :: k in r <==> k in ks && IsVillainKey(k)
  {
    if ks == [] then []
    else (if IsVillainKey(ks[0]) then [ks[0]] else []) + VillainKeys(ks[1..])
  }

  /** `j[k]`; an absent key reads as null, which every use below treats as
      it treats `undefined`. */
  function Get(j: Json, k: string): Json {
    var v := Prop(j, k);
    if v.Some? then v.value else JNull
  }

  /** `x || {}`. */
  function OrEmpty(j: Json): Json {
    if Falsy(j) then JObj([]) else j
  }

  /** `Object.keys(j)`, which throws on null. */
  function KeysOf(j: Json): Result<seq<string>, ProfileError> {
    if j == JNull then Failure(KeysOfNull) else Success(OwnKeys(j))
  }

  /** `k in j`, which throws unless `j` is an object. */
  function Has(j: Json, k: string): Result<bool, ProfileError> {
    if IsObject(j) then Success(Prop(j, k).Some?) else Failure(InOnNonObject(k))
  }

  function Prepend(h: seq<Issue>, res: Result<seq<Issue>, ProfileError>): Result<seq<Issue>, ProfileError> {
    if res.Failure? then res else Success(h + res.value)
  }

  /** The list `acc` after the issues of `res` are pushed onto it. */
  function AppendTo(acc: seq<Issue>, res: Result<seq<Issue>, ProfileError>): Result<seq<Issue>, ProfileError> {
    if res.Failure? then Failure(res.error) else Success(acc + res.value)
  }

  lemma AppendPrepend(acc: seq<Issue>, h: seq<Issue>, res: Result<seq<Issue>, ProfileError>)
    ensures AppendTo(acc, Prepend(h, res)) == AppendTo(acc + h, res)
  {
    if res.Success? {
      assert acc + (h + res.value) == acc + h + res.value;
    }
  }

  /** Pushing the issues of one step and then of the next is pushing both. */
  lemma AppendPair(acc: seq<Issue>, a: Result<seq<Issue>, ProfileError>, b: Result<seq<Issue>, ProfileError>)
    requires a.Success?
    ensures AppendTo(AppendTo(acc, a).value, b)
         == AppendTo(acc, if b.Failure? then Failure(b.error) else Success(a.value + b.value))
  {
    if b.Success? {
      assert acc + a.value + b.value == acc + (a.value + b.value);
    }
  }

  /** Every `Missing` issue is at rank `m` or deeper, every `Extra` one at
      rank `e` or deeper. */
  predicate Ranked(issues: seq<Issue>, m: nat, e: nat) {
    forall i :: i in issues ==> (i.Missing? ==> i.level.Rank() >= m) && (i.Extra? ==> i.level.Rank() >= e)
  }

  /** Every issue lies below the key chain `at`. */
  predicate Under(issues: seq<Issue>, at: seq<string>) {
    forall i :: i in issues ==> at <= i.at
  }

  // ---- the comparison, level by level ---------------------------------------

  /** The villain seats of a template scenario the profile scenario lacks. */
  function VillainIssues(vs: seq<string>, profSc: Json, sc: string, at: seq<string>): (r: Result<seq<Issue>, ProfileError>)
    ensures r.Success? ==> forall i :: i in r.value ==> i.MissingVillain? && i.scenario == sc && i.at == at
  {
    if vs == [] then Success([])
    else
      var has :- Has(profSc, vs[0]);
      Prepend(if has then [] else [MissingVillain(vs[0], sc, at)], VillainIssues(vs[1..], profSc, sc, at))
  }

  /** A scenario both tables have: a villain-keyed template scenario needs
      its villain seats in the profile, any other only an object there. */
  function ScenarioIssues(tmplPos: Json, profPos: Json, sc: string, at: seq<string>): (r: Result<seq<Issue>, ProfileError>)
    ensures r.Success? ==> forall i :: i in r.value ==> (i.MissingVillain? || i.NotAnObject?) && i.scenario == sc && i.at == at
  {
    var tmplSc := OrEmpty(Get(tmplPos, sc));
    var profSc := OrEmpty(Get(profPos, sc));
    var vs := VillainKeys(OwnKeys(tmplSc));
    if vs != [] then VillainIssues(vs, profSc, sc, at)
    else if !IsObject(profSc) then Success([NotAnObject(sc, at)])
    else Success([])
  }

  function ScenariosIssues(ks: seq<string>, tmplPos: Json, profPos: Json, at: seq<string>): (r: Result<seq<Issue>, ProfileError>)
    ensures r.Success? ==> Ranked(r.value, 3, 4) && Under(r.value, at)
  {
    if ks == [] then Success([])
    else
      var has :- Has(profPos, ks[0]);
      var step :- if has then ScenarioIssues(tmplPos, profPos, ks[0], at)
                  else Success([Missing(ScenarioLevel, ks[0], at)]);
      Prepend(step, ScenariosIssues(ks[1..], tmplPos, profPos, at))
  }

  /** The keys of `ks` that `ref` lacks, each reported as extra. */
  function ExtraIssues(ks: seq<string>, ref: Json, level: Level, at: seq<string>): (r: Result<seq<Issue>, ProfileError>)
    ensures r.Success? ==> forall i :: i in r.value ==> i.Extra? && i.level == level && i.at == at
  {
    if ks == [] then Success([])
    else
      var has :- Has(ref, ks[0]);
      Prepend(if has then [] else [Extra(level, ks[0], at)], ExtraIssues(ks[1..], ref, level, at))
  }

  /** A seat both tables have, its two nodes already read with `|| {}`;
      `at` ends with the seat. */
  function PositionIssues(tmplPos: Json, profPos: Json, at: seq<string>): (r: Result<seq<Issue>, ProfileError>)
    ensures r.Success? ==> Ranked(r.value, 3, 3) && Under(r.value, at)
  {
    var a :- ScenariosIssues(OwnKeys(tmplPos), tmplPos, profPos, at);
    var b :- ExtraIssues(OwnKeys(profPos), tmplPos, ScenarioLevel, at);
    Success(a + b)
  }

  function PositionsIssues(ks: seq<string>, tmplDepth: Json, profDepth: Json, at: seq<string>): (r: Result<seq<Issue>, ProfileError>)
    ensures r.Success? ==> Ranked(r.value, 2, 3) && Under(r.value, at)
  {
    if ks == [] then Success([])
    else
      var has :- Has(profDepth, ks[0]);
      var step :- if has then PositionIssues(OrEmpty(Get(tmplDepth, ks[0])), OrEmpty(Get(profDepth, ks[0])), at + [ks[0]])
                  else Success([Missing(PositionLevel, ks[0], at)]);
      Prepend(step, PositionsIssues(ks[1..], tmplDepth, profDepth, at))
  }

  /** A depth both tables have. */
  function DepthIssues(tmplPlayers: Json, profPlayers: Json, dk: string, at: seq<string>): (r: Result<seq<Issue>, ProfileError>)
    ensures r.Success? ==> Ranked(r.value, 2, 2) && Under(r.value, at + [dk])
  {
    var tmplDepth := Get(tmplPlayers, dk);
    var profDepth := Get(profPlayers, dk);
    var ks :- KeysOf(tmplDepth);
    var a :- PositionsIssues(ks, tmplDepth, profDepth, at + [dk]);
    var pks :- KeysOf(profDepth);
    var b :- ExtraIssues(pks, tmplDepth, PositionLevel, at + [dk]);
    Success(a + b)
  }

  function DepthsIssues(ks: seq<string>, tmplPlayers: Json, profPlayers: Json, at: seq<string>): (r: Result<seq<Issue>, ProfileError>)
    ensures r.Success? ==> Ranked(r.value, 1, 2) && Under(r.value, at)
  {
    if ks == [] then Success([])
    else
      var has :- Has(profPlayers, ks[0]);
      var step :- if has then DepthIssues(tmplPlayers, profPlayers, ks[0], at)
                  else Success([Missing(DepthLevel, ks[0], at)]);
      Prepend(step, DepthsIssues(ks[1..], tmplPlayers, profPlayers, at))
  }

  /** A players count both tables have. */
  function PlayerIssues(template: Json, profile: Json, pk: string): (r: Result<seq<Issue>, ProfileError>)
    ensures r.Success? ==> Ranked(r.value, 1, 1) && Under(r.value, [pk])
  {
    var tmplPlayers := Get(template, pk);
    var profPlayers := Get(profile, pk);
    var ks :- KeysOf(tmplPlayers);
    var a :- DepthsIssues(ks, tmplPlayers, profPlayers, [pk]);
    var pks :- KeysOf(profPlayers);
    var b :- ExtraIssues(pks, tmplPlayers, DepthLevel, [pk]);
    Success(a + b)
  }

  function PlayersIssues(ks: seq<string>, template: Json, profile: Json): (r: Result<seq<Issue>, ProfileError>)
    ensures r.Success? ==> Ranked(r.value, 0, 1)
  {
    if ks == [] then Success([])
    else
      var has :- Has(profile, ks[0]);
      var step :- if has then PlayerIssues(template, profile, ks[0])
                  else Success([Missing(PlayersLevel, ks[0], [])]);
      Prepend(step, PlayersIssues(ks[1..], template, profile))
  }

  /** `validateProfileAgainstTemplate`: the issues, in the order pushed, or
      the `TypeError` the comparison throws; `Object.keys(null)` throws on
      a null template at once, and a null profile never gets through. */
  function ProfileIssues(template: Json, profile: Json): (r: Result<seq<Issue>, ProfileError>)
    ensures template == JNull ==> r == Failure(KeysOfNull)
    ensures r.Success? ==> template != JNull && profile != JNull
  {
    var ks :- KeysOf(template);
    var a :- PlayersIssues(ks, template, profile);
    var pks :- KeysOf(profile);
    var b :- ExtraIssues(pks, template, PlayersLevel, []);
    Success(a + b)
  }

  // ---- the script's loops, each pushing onto the caller's list ---------------

  method CheckVillains(issues: seq<Issue>, vs: seq<string>, profSc: Json, sc: string, at: seq<string>)
    returns (r: Result<seq<Issue>, ProfileError>)
    ensures r == AppendTo(issues, VillainIssues(vs, profSc, sc, at))
  {
    var acc := issues;
    for n := 0 to |vs|
      invariant AppendTo(issues, VillainIssues(vs, profSc, sc, at)) == AppendTo(acc, VillainIssues(vs[n..], profSc, sc, at))
    {
      assert vs[n..][1..] == vs[n + 1..];
      var has := Has(profSc, vs[n]);
      if has.Failure? {
        return Failure(has.error);
      }
      var step := if has.value then [] else [MissingVillain(vs[n], sc, at)];
      AppendPrepend(acc, step, VillainIssues(vs[n + 1..], profSc, sc, at));
      acc := acc + step;
    }
    assert vs[|vs|..] == [] && acc + [] == acc;
    return Success(acc);
  }

  method CheckScenario(issues: seq<Issue>, tmplPos: Json, profPos: Json, sc: string, at: seq<string>)
    returns (r: Result<seq<Issue>, ProfileError>)
    ensures r == AppendTo(issues, ScenarioIssues(tmplPos, profPos, sc, at))
  {
    var tmplSc := OrEmpty(Get(tmplPos, sc));
    var profSc := OrEmpty(Get(profPos, sc));
    var tmplVillains := VillainKeys(OwnKeys(tmplSc));
    if tmplVillains != [] {
      r := CheckVillains(issues, tmplVillains, profSc, sc, at);
    } else if !IsObject(profSc) {
      r := Success(issues + [NotAnObject(sc, at)]);
    } else {
      r := Success(issues);
      assert issues + [] == issues;
    }
  }

  /** The extra-key loops: every key of `ks` that `ref` lacks is pushed. */
  method CheckExtras(issues: seq<Issue>, ks: seq<string>, ref: Json, level: Level, at: seq<string>)
    returns (r: Result<seq<Issue>, ProfileError>)
    ensures r == AppendTo(issues, ExtraIssues(ks, ref, level, at))
  {
    var acc := issues;
    for n := 0 to |ks|
      invariant AppendTo(issues, ExtraIssues(ks, ref, level, at)) == AppendTo(acc, ExtraIssues(ks[n..], ref, level, at))
    {
      assert ks[n..][1..] == ks[n + 1..];
      var has := Has(ref, ks[n]);
      if has.Failure? {
        return Failure(has.error);
      }
      var step := if has.value then [] else [Extra(level, ks[n], at)];
      AppendPrepend(acc, step, ExtraIssues(ks[n + 1..], ref, level, at));
      acc := acc + step;
    }
    assert ks[|ks|..] == [] && acc + [] == acc;
    return Success(acc);
  }

  method CheckScenarios(issues: seq<Issue>, ks: seq<string>, tmplPos: Json, profPos: Json, at: seq<string>)
    returns (r: Result<seq<Issue>, ProfileError>)
    ensures r == AppendTo(issues, ScenariosIssues(ks, tmplPos, profPos, at))
  {
    var acc := issues;
    for n := 0 to |ks|
      invariant AppendTo(issues, ScenariosIssues(ks, tmplPos, profPos, at)) == AppendTo(acc, ScenariosIssues(ks[n..], tmplPos, profPos, at))
    {
      assert ks[n..][1..] == ks[n + 1..];
      var scKey := ks[n];
      var has := Has(profPos, scKey);
      if has.Failure? {
        return Failure(has.error);
      }
      var rest := ScenariosIssues(ks[n + 1..], tmplPos, profPos, at);
      if !has.value {
        AppendPrepend(acc, [Missing(ScenarioLevel, scKey, at)], rest);
        acc := acc + [Missing(ScenarioLevel, scKey, at)];
        continue;
      }
      var res := CheckScenario(acc, tmplPos, profPos, scKey, at);
      if res.Failure? {
        return res;
      }
      AppendPrepend(acc, res.value[|acc|..], rest);
      assert acc + res.value[|acc|..] == res.value;
      acc := res.value;
    }
    assert ks[|ks|..] == [] && acc + [] == acc;
    return Success(acc);
  }

  method CheckPosition(issues: seq<Issue>, tmplPos: Json, profPos: Json, at: seq<string>)
    returns (r: Result<seq<Issue>, ProfileError>)
    ensures r == AppendTo(issues, PositionIssues(tmplPos, profPos, at))
  {
    r := CheckScenarios(issues, OwnKeys(tmplPos), tmplPos, profPos, at);
    if r.Failure? {
      return;
    }
    ghost var a := ScenariosIssues(OwnKeys(tmplPos), tmplPos, profPos, at);
    var mid := r.value;
    r := CheckExtras(mid, OwnKeys(profPos), tmplPos, ScenarioLevel, at);
    ghost var b := ExtraIssues(OwnKeys(profPos), tmplPos, ScenarioLevel, at);
    AppendPair(issues, a, b);
  }

  method CheckPositions(issues: seq<Issue>, ks: seq<string>, tmplDepth: Json, profDepth: Json, at: seq<string>)
    returns (r: Result<seq<Issue>, ProfileError>)
    ensures r == AppendTo(issues, PositionsIssues(ks, tmplDepth, profDepth, at))
  {
    var acc := issues;
    for n := 0 to |ks|
      invariant AppendTo(issues, PositionsIssues(ks, tmplDepth, profDepth, at)) == AppendTo(acc, PositionsIssues(ks[n..], tmplDepth, profDepth, at))
    {
      assert ks[n..][1..] == ks[n + 1..];
      var posKey := ks[n];
      var has := Has(profDepth, posKey);
      if has.Failure? {
        return Failure(has.error);
      }
      var rest := PositionsIssues(ks[n + 1..], tmplDepth, profDepth, at);
      if !has.value {
        AppendPrepend(acc, [Missing(PositionLevel, posKey, at)], rest);
        acc := acc + [Missing(PositionLevel, posKey, at)];
        continue;
      }
      var tmplPos := OrEmpty(Get(tmplDepth, posKey));
      var profPos := OrEmpty(Get(profDepth, posKey));
      var res := CheckPosition(acc, tmplPos, profPos, at + [posKey]);
      if res.Failure? {
        return res;
      }
      AppendPrepend(acc, res.value[|acc|..], rest);
      assert acc + res.value[|acc|..] == res.value;
      acc := res.value;
    }
    assert ks[|ks|..] == [] && acc + [] == acc;
    return Success(acc);
  }

  method CheckDepth(issues: seq<Issue>, tmplPlayers: Json, profPlayers: Json, dk: string, at: seq<string>)
    returns (r: Result<seq<Issue>, ProfileError>)
    ensures r == AppendTo(issues, DepthIssues(tmplPlayers, profPlayers, dk, at))
  {
    var tmplDepth := Get(tmplPlayers, dk);
    var profDepth := Get(profPlayers, dk);
    if tmplDepth == JNull {
      return Failure(KeysOfNull);
    }
    r := CheckPositions(issues, OwnKeys(tmplDepth), tmplDepth, profDepth, at + [dk]);
    if r.Failure? {
      return;
    }
    if profDepth == JNull {
      return Failure(KeysOfNull);
    }
    ghost var a := PositionsIssues(OwnKeys(tmplDepth), tmplDepth, profDepth, at + [dk]);
    var mid := r.value;
    r := CheckExtras(mid, OwnKeys(profDepth), tmplDepth, PositionLevel, at + [dk]);
    ghost var b := ExtraIssues(OwnKeys(profDepth), tmplDepth, PositionLevel, at + [dk]);
    AppendPair(issues, a, b);
  }

  method CheckDepths(issues: seq<Issue>, ks: seq<string>, tmplPlayers: Json, profPlayers: Json, at: seq<string>)
    returns (r: Result<seq<Issue>, ProfileError>)
    ensures r == AppendTo(issues, DepthsIssues(ks, tmplPlayers, profPlayers, at))
  {
    var acc := issues;
    for n := 0 to |ks|
      invariant AppendTo(issues, DepthsIssues(ks, tmplPlayers, profPlayers, at)) == AppendTo(acc, DepthsIssues(ks[n..], tmplPlayers, profPlayers, at))
    {
      assert ks[n..][1..] == ks[n + 1..];
      var depthKey := ks[n];
      var has := Has(profPlayers, depthKey);
      if has.Failure? {
        return Failure(has.error);
      }
      var rest := DepthsIssues(ks[n + 1..], tmplPlayers, profPlayers, at);
      if !has.value {
        AppendPrepend(acc, [Missing(DepthLevel, depthKey, at)], rest);
        acc := acc + [Missing(DepthLevel, depthKey, at)];
        continue;
      }
      var res := CheckDepth(acc, tmplPlayers, profPlayers, depthKey, at);
      if res.Failure? {
        return res;
      }
      AppendPrepend(acc, res.value[|acc|..], rest);
      assert acc + res.value[|acc|..] == res.value;
      acc := res.value;
    }
    assert ks[|ks|..] == [] && acc + [] == acc;
    return Success(acc);
  }

  method CheckPlayers(issues: seq<Issue>, template: Json, profile: Json, pk: string)
    returns (r: Result<seq<Issue>, ProfileError>)
    ensures r == AppendTo(issues, PlayerIssues(template, profile, pk))
  {
    var tmplPlayers := Get(template, pk);
    var profPlayers := Get(profile, pk);
    if tmplPlayers == JNull {
      return Failure(KeysOfNull);
    }
    r := CheckDepths(issues, OwnKeys(tmplPlayers), tmplPlayers, profPlayers, [pk]);
    if r.Failure? {
      return;
    }
    if profPlayers == JNull {
      return Failure(KeysOfNull);
    }
    ghost var a := DepthsIssues(OwnKeys(tmplPlayers), tmplPlayers, profPlayers, [pk]);
    var mid := r.value;
    r := CheckExtras(mid, OwnKeys(profPlayers), tmplPlayers, DepthLevel, [pk]);
    ghost var b := ExtraIssues(OwnKeys(profPlayers), tmplPlayers, DepthLevel, [pk]);
    AppendPair(issues, a, b);
  }

  method CheckAllPlayers(issues: seq<Issue>, ks: seq<string>, template: Json, profile: Json)
    returns (r: Result<seq<Issue>, ProfileError>)
    ensures r == AppendTo(issues, PlayersIssues(ks, template, profile))
  {
    var acc := issues;
    for n := 0 to |ks|
      invariant AppendTo(issues, PlayersIssues(ks, template, profile)) == AppendTo(acc, PlayersIssues(ks[n..], template, profile))
    {
      assert ks[n..][1..] == ks[n + 1..];
      var playersKey := ks[n];
      var has := Has(profile, playersKey);
      if has.Failure? {
        return Failure(has.error);
      }
      var rest := PlayersIssues(ks[n + 1..], template, profile);
      if !has.value {
        AppendPrepend(acc, [Missing(PlayersLevel, playersKey, [])], rest);
        acc := acc + [Missing(PlayersLevel, playersKey, [])];
        continue;
      }
      var res := CheckPlayers(acc, template, profile, playersKey);
      if res.Failure? {
        return res;
      }
      AppendPrepend(acc, res.value[|acc|..], rest);
      assert acc + res.value[|acc|..] == res.value;
      acc := res.value;
    }
    assert ks[|ks|..] == [] && acc + [] == acc;
    return Success(acc);
  }

  /** `validateProfileAgainstTemplate(template, profile, profileName)`; the
      name is not used by the comparison. */
  method ValidateProfileAgainstTemplate(template: Json, profile: Json, profileName: string)
    returns (r: Result<seq<Issue>, ProfileError>)
    ensures r == ProfileIssues(template, profile)
  {
    if template == JNull {
      return Failure(KeysOfNull);
    }
    var issues: seq<Issue> := [];
    r := CheckAllPlayers(issues, OwnKeys(template), template, profile);
    if r.Failure? {
      return;
    }
    if profile == JNull {
      return Failure(KeysOfNull);
    }
    ghost var a := PlayersIssues(OwnKeys(template), template, profile);
    var mid := r.value;
    r := CheckExtras(mid, OwnKeys(profile), template, PlayersLevel, []);
    ghost var b := ExtraIssues(OwnKeys(profile), template, PlayersLevel, []);
    AppendPair(issues, a, b);
    assert [] + a.value == a.value;
    if b.Success? {
      assert [] + (a.value + b.value) == a.value + b.value;
    }
  }
}
