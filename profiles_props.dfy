/** What the profile comparison reports, level by level. */
module ProfileProperties {
  import opened Wrappers
  import opened Json
  import opened Profiles
  import RangesValidation

  // ---- villain seats -----------------------------------------------------

  lemma {:induction false} VillainIssuesIff(vs: seq<string>, profSc: Json, sc: string, at: seq<string>, v: string)
    requires VillainIssues(vs, profSc, sc, at).Success?
    ensures MissingVillain(v, sc, at) in VillainIssues(vs, profSc, sc, at).value
            <==> v in vs && Prop(profSc, v).None?
  {
    if vs != [] {
      VillainIssuesIff(vs[1..], profSc, sc, at, v);
      assert v in vs <==> v == vs[0] || v in vs[1..];
    }
  }

  /** A villain seat is reported exactly when the template scenario has it
      and the profile scenario lacks it; the profile's own extra villain
      seats are never reported. */
  lemma ScenarioVillainsIff(tmplPos: Json, profPos: Json, sc: string, at: seq<string>, v: string)
    requires ScenarioIssues(tmplPos, profPos, sc, at).Success?
    ensures MissingVillain(v, sc, at) in ScenarioIssues(tmplPos, profPos, sc, at).value
            <==> IsVillainKey(v) && v in OwnKeys(OrEmpty(Get(tmplPos, sc)))
                 && Prop(OrEmpty(Get(profPos, sc)), v).None?
  {
    var vs := VillainKeys(OwnKeys(OrEmpty(Get(tmplPos, sc))));
    if vs != [] {
      VillainIssuesIff(vs, OrEmpty(Get(profPos, sc)), sc, at, v);
    }
  }

  /** A template scenario without villain seats only asks that the profile
      scenario be an object; a falsy profile scenario counts as `{}`. */
  lemma UnkeyedScenarioNeedsObject(tmplPos: Json, profPos: Json, sc: string, at: seq<string>)
    requires VillainKeys(OwnKeys(OrEmpty(Get(tmplPos, sc)))) == []
    ensures ScenarioIssues(tmplPos, profPos, sc, at).Success?
    ensures ScenarioIssues(tmplPos, profPos, sc, at).value == []
            <==> Falsy(Get(profPos, sc)) || IsObject(Get(profPos, sc))
    ensures ScenarioIssues(tmplPos, profPos, sc, at).value != []
            ==> ScenarioIssues(tmplPos, profPos, sc, at).value == [NotAnObject(sc, at)]
  {
  }

  // ---- missing keys ----------------------------------------------------

  /** A template scenario is reported missing exactly when the profile seat
      lacks it, and then nothing else is reported about that scenario. */
  lemma {:induction false} MissingScenarioIff(ks: seq<string>, tmplPos: Json, profPos: Json, at: seq<string>, k: string)
    requires ScenariosIssues(ks, tmplPos, profPos, at).Success?
    ensures var r := ScenariosIssues(ks, tmplPos, profPos, at).value;
      (Missing(ScenarioLevel, k, at) in r <==> k in ks && Prop(profPos, k).None?)
      && (Prop(profPos, k).None? ==> forall i :: i in r && !i.Missing? ==> i.scenario != k)
  {
    if ks != [] {
      MissingScenarioIff(ks[1..], tmplPos, profPos, at, k);
      assert k in ks <==> k == ks[0] || k in ks[1..];
    }
  }

  /** A template seat is reported missing exactly when the profile depth
      lacks it, and then nothing below it is reported. */
  lemma {:induction false} MissingPositionIff(ks: seq<string>, tmplDepth: Json, profDepth: Json, at: seq<string>, k: string)
    requires PositionsIssues(ks, tmplDepth, profDepth, at).Success?
    ensures var r := PositionsIssues(ks, tmplDepth, profDepth, at).value;
      (Missing(PositionLevel, k, at) in r <==> k in ks && Prop(profDepth, k).None?)
      && (Prop(profDepth, k).None? ==> forall i :: i in r ==> !(at + [k] <= i.at))
  {
    if ks != [] {
      MissingPositionIff(ks[1..], tmplDepth, profDepth, at, k);
      assert k in ks <==> k == ks[0] || k in ks[1..];
      if ks[0] != k && Has(profDepth, ks[0]).value {
        forall i | i in PositionIssues(OrEmpty(Get(tmplDepth, ks[0])), OrEmpty(Get(profDepth, ks[0])), at + [ks[0]]).value
          ensures !(at + [k] <= i.at)
        {
          PrefixesDiffer(at, ks[0], k, i.at);
        }
      }
    }
  }

  lemma {:induction false} MissingDepthIff(ks: seq<string>, tmplPlayers: Json, profPlayers: Json, at: seq<string>, k: string)
    requires DepthsIssues(ks, tmplPlayers, profPlayers, at).Success?
    ensures var r := DepthsIssues(ks, tmplPlayers, profPlayers, at).value;
      (Missing(DepthLevel, k, at) in r <==> k in ks && Prop(profPlayers, k).None?)
      && (Prop(profPlayers, k).None? ==> forall i :: i in r ==> !(at + [k] <= i.at))
  {
    if ks != [] {
      MissingDepthIff(ks[1..], tmplPlayers, profPlayers, at, k);
      assert k in ks <==> k == ks[0] || k in ks[1..];
      if ks[0] != k && Has(profPlayers, ks[0]).value {
        forall i | i in DepthIssues(tmplPlayers, profPlayers, ks[0], at).value
          ensures !(at + [k] <= i.at)
        {
          PrefixesDiffer(at, ks[0], k, i.at);
        }
      }
    }
  }

  lemma {:induction false} MissingPlayersIff(ks: seq<string>, template: Json, profile: Json, k: string)
    requires PlayersIssues(ks, template, profile).Success?
    ensures var r := PlayersIssues(ks, template, profile).value;
      (Missing(PlayersLevel, k, []) in r <==> k in ks && Prop(profile, k).None?)
      && (Prop(profile, k).None? ==> forall i :: i in r ==> !([k] <= i.at))
  {
    if ks != [] {
      MissingPlayersIff(ks[1..], template, profile, k);
      assert k in ks <==> k == ks[0] || k in ks[1..];
      if ks[0] != k && Has(profile, ks[0]).value {
        forall i | i in PlayerIssues(template, profile, ks[0]).value
          ensures !([k] <= i.at)
        {
          assert [] + [ks[0]] == [ks[0]] && [] + [k] == [k];
          PrefixesDiffer([], ks[0], k, i.at);
        }
      }
    }
  }

  /** Two key chains that part at their last key have no common extension. */
  lemma PrefixesDiffer(at: seq<string>, a: string, b: string, p: seq<string>)
    requires a != b && at + [a] <= p
    ensures !(at + [b] <= p)
  {
    assert p[|at|] == (at + [a])[|at|] == a;
  }

  // ---- extra keys ------------------------------------------------------

  /** Issues ranked below a level hold no extra key of that level. */
  lemma RankedExcludesExtra(issues: seq<Issue>, m: nat, e: nat, level: Level, k: string, at: seq<string>)
    requires Ranked(issues, m, e) && level.Rank() < e
    ensures Extra(level, k, at) !in issues
  {
  }

  lemma {:induction false} ExtraIssuesIff(ks: seq<string>, ref: Json, level: Level, at: seq<string>, k: string)
    requires ExtraIssues(ks, ref, level, at).Success?
    ensures Extra(level, k, at) in ExtraIssues(ks, ref, level, at).value <==> k in ks && Prop(ref, k).None?
  {
    if ks != [] {
      ExtraIssuesIff(ks[1..], ref, level, at, k);
      assert k in ks <==> k == ks[0] || k in ks[1..];
    }
  }

  /** A profile scenario is reported extra exactly when the template seat
      lacks it. */
  lemma ExtraScenarioIff(tmplPos: Json, profPos: Json, at: seq<string>, k: string)
    requires PositionIssues(tmplPos, profPos, at).Success?
    ensures Extra(ScenarioLevel, k, at) in PositionIssues(tmplPos, profPos, at).value
            <==> k in OwnKeys(profPos) && Prop(tmplPos, k).None?
  {
    var a := ScenariosIssues(OwnKeys(tmplPos), tmplPos, profPos, at);
    var b := ExtraIssues(OwnKeys(profPos), tmplPos, ScenarioLevel, at);
    assert a.Success? && b.Success?;
    assert PositionIssues(tmplPos, profPos, at).value == a.value + b.value;
    RankedExcludesExtra(a.value, 3, 4, ScenarioLevel, k, at);
    ExtraIssuesIff(OwnKeys(profPos), tmplPos, ScenarioLevel, at, k);
  }

  lemma ExtraPositionIff(tmplPlayers: Json, profPlayers: Json, dk: string, at: seq<string>, k: string)
    requires DepthIssues(tmplPlayers, profPlayers, dk, at).Success?
    ensures Extra(PositionLevel, k, at + [dk]) in DepthIssues(tmplPlayers, profPlayers, dk, at).value
            <==> k in OwnKeys(Get(profPlayers, dk)) && Prop(Get(tmplPlayers, dk), k).None?
  {
    var tmplDepth := Get(tmplPlayers, dk);
    var profDepth := Get(profPlayers, dk);
    var a := PositionsIssues(OwnKeys(tmplDepth), tmplDepth, profDepth, at + [dk]);
    var b := ExtraIssues(OwnKeys(profDepth), tmplDepth, PositionLevel, at + [dk]);
    assert a.Success? && b.Success?;
    assert DepthIssues(tmplPlayers, profPlayers, dk, at).value == a.value + b.value;
    RankedExcludesExtra(a.value, 2, 3, PositionLevel, k, at + [dk]);
    ExtraIssuesIff(OwnKeys(profDepth), tmplDepth, PositionLevel, at + [dk], k);
  }

  lemma ExtraDepthIff(template: Json, profile: Json, pk: string, k: string)
    requires PlayerIssues(template, profile, pk).Success?
    ensures Extra(DepthLevel, k, [pk]) in PlayerIssues(template, profile, pk).value
            <==> k in OwnKeys(Get(profile, pk)) && Prop(Get(template, pk), k).None?
  {
    ExtraIssuesIff(OwnKeys(Get(profile, pk)), Get(template, pk), DepthLevel, [pk], k);
  }

  /** At the top: a players count is reported missing exactly when the
      template has it and the profile does not, and extra exactly in the
      reverse case. */
  lemma PlayersKeysIff(template: Json, profile: Json, k: string)
    requires ProfileIssues(template, profile).Success?
    ensures Missing(PlayersLevel, k, []) in ProfileIssues(template, profile).value
            <==> Prop(template, k).Some? && Prop(profile, k).None?
    ensures Extra(PlayersLevel, k, []) in ProfileIssues(template, profile).value
            <==> Prop(profile, k).Some? && Prop(template, k).None?
  {
    OwnKeysMembership(template, k);
    OwnKeysMembership(profile, k);
    MissingPlayersIff(OwnKeys(template), template, profile, k);
    ExtraIssuesIff(OwnKeys(profile), template, PlayersLevel, [], k);
  }

  // ---- errors ------------------------------------------------------------

  /** A template with a players key and a profile that is not an object:
      the first `in` throws. */
  lemma NonObjectProfileThrows(template: Json, profile: Json)
    requires template != JNull && OwnKeys(template) != [] && !IsObject(profile)
    ensures ProfileIssues(template, profile) == Failure(InOnNonObject(OwnKeys(template)[0]))
  {
  }

  // ---- a table compared with itself ------------------------------------------

  lemma {:induction false} VillainsSelf(vs: seq<string>, node: Json, sc: string, at: seq<string>)
    requires IsObject(node) && forall v :: v in vs ==> v in OwnKeys(node)
    ensures VillainIssues(vs, node, sc, at) == Success([])
  {
    if vs != [] {
      var none: seq<Issue> := []; assert none + none == none;
      OwnKeysMembership(node, vs[0]);
      VillainsSelf(vs[1..], node, sc, at);
    }
  }

  lemma ScenarioSelf(pos: Json, sc: string, at: seq<string>)
    requires RangesValidation.IsObjectValue(Prop(pos, sc))
    ensures ScenarioIssues(pos, pos, sc, at) == Success([])
  {
    var node := Prop(pos, sc).value;
    assert OrEmpty(Get(pos, sc)) == node;
    var vs := VillainKeys(OwnKeys(node));
    if vs != [] {
      VillainsSelf(vs, node, sc, at);
    }
  }

  lemma {:induction false} ScenariosSelf(ks: seq<string>, pos: Json, at: seq<string>)
    requires IsObject(pos) && forall k :: k in ks ==> RangesValidation.IsObjectValue(Prop(pos, k))
    ensures ScenariosIssues(ks, pos, pos, at) == Success([])
  {
    if ks != [] {
      var none: seq<Issue> := []; assert none + none == none;
      ScenarioSelf(pos, ks[0], at);
      ScenariosSelf(ks[1..], pos, at);
    }
  }

  lemma {:induction false} ExtrasSelf(ks: seq<string>, ref: Json, level: Level, at: seq<string>)
    requires IsObject(ref) && forall k :: k in ks ==> k in OwnKeys(ref)
    ensures ExtraIssues(ks, ref, level, at) == Success([])
  {
    if ks != [] {
      var none: seq<Issue> := []; assert none + none == none;
      OwnKeysMembership(ref, ks[0]);
      ExtrasSelf(ks[1..], ref, level, at);
    }
  }

  lemma PositionSelf(d: RangesValidation.Dialect, posNode: Json, at: seq<string>)
    requires RangesValidation.PositionOk(d, Some(posNode))
    ensures PositionIssues(posNode, posNode, at) == Success([])
  {
    var none: seq<Issue> := []; assert none + none == none;
    ScenariosSelf(OwnKeys(posNode), posNode, at);
    ExtrasSelf(OwnKeys(posNode), posNode, ScenarioLevel, at);
  }

  lemma {:induction false} PositionsSelf(d: RangesValidation.Dialect, ks: seq<string>, dn: Json, at: seq<string>)
    requires IsObject(dn) && forall k :: k in ks ==> RangesValidation.PositionOk(d, Prop(dn, k))
    ensures PositionsIssues(ks, dn, dn, at) == Success([])
  {
    if ks != [] {
      var none: seq<Issue> := []; assert none + none == none;
      var posNode := Prop(dn, ks[0]).value;
      assert OrEmpty(Get(dn, ks[0])) == posNode;
      PositionSelf(d, posNode, at + [ks[0]]);
      PositionsSelf(d, ks[1..], dn, at);
    }
  }

  lemma DepthSelf(d: RangesValidation.Dialect, pn: Json, dk: string, at: seq<string>)
    requires RangesValidation.DepthOk(d, Prop(pn, dk))
    ensures DepthIssues(pn, pn, dk, at) == Success([])
  {
    var none: seq<Issue> := []; assert none + none == none;
    var dn := Get(pn, dk);
    PositionsSelf(d, OwnKeys(dn), dn, at + [dk]);
    ExtrasSelf(OwnKeys(dn), dn, PositionLevel, at + [dk]);
  }

  lemma {:induction false} DepthsSelf(d: RangesValidation.Dialect, ks: seq<string>, pn: Json, at: seq<string>)
    requires IsObject(pn) && forall k :: k in ks ==> RangesValidation.DepthOk(d, Prop(pn, k))
    ensures DepthsIssues(ks, pn, pn, at) == Success([])
  {
    if ks != [] {
      var none: seq<Issue> := []; assert none + none == none;
      DepthSelf(d, pn, ks[0], at);
      DepthsSelf(d, ks[1..], pn, at);
    }
  }

  lemma PlayerSelf(d: RangesValidation.Dialect, t: Json, pk: string)
    requires RangesValidation.PlayersOk(d, Prop(t, pk))
    ensures PlayerIssues(t, t, pk) == Success([])
  {
    var none: seq<Issue> := []; assert none + none == none;
    var pn := Get(t, pk);
    DepthsSelf(d, OwnKeys(pn), pn, [pk]);
    ExtrasSelf(OwnKeys(pn), pn, DepthLevel, [pk]);
  }

  lemma {:induction false} PlayersSelf(d: RangesValidation.Dialect, ks: seq<string>, t: Json)
    requires IsObject(t) && forall k :: k in ks ==> RangesValidation.PlayersOk(d, Prop(t, k))
    ensures PlayersIssues(ks, t, t) == Success([])
  {
    if ks != [] {
      var none: seq<Issue> := []; assert none + none == none;
      PlayerSelf(d, t, ks[0]);
      PlayersSelf(d, ks[1..], t);
    }
  }

  /** A table the range loader accepts, of either version, compared with
      itself, reports nothing and throws nothing. */
  lemma SelfComparisonClean(d: RangesValidation.Dialect, t: Json)
    requires RangesValidation.WellFormedTable(d, t)
    ensures ProfileIssues(t, t) == Success([])
  {
    var none: seq<Issue> := []; assert none + none == none;
    PlayersSelf(d, OwnKeys(t), t);
    ExtrasSelf(OwnKeys(t), t, PlayersLevel, []);
  }
}
