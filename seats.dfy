/** Table size and seat rules. `parsePlayersCount`, `parsePosition`,
    `allowedPositions` and `allVillainPositions` are written identically in
    both versions of the repository. */
module Seats {
  import opened Wrappers
  import Text

  type PlayersCount = n: int | n == 2 || n == 3 witness 2

  datatype Position = BTN | SB | BB {
    /** The enum's string value. */
    function Name(): string {
      match this
      case BTN => "BTN"
      case SB => "SB"
      case BB => "BB"
    }
  }

  datatype SeatError =
    | BadPlayersCount(n: int)
    | BadPosition(pos: string, players: PlayersCount)

  /** Only heads-up and three-handed tables exist. */
  function ParsePlayersCount(n: int): (r: Result<PlayersCount, SeatError>)
    ensures r.Success? <==> n == 2 || n == 3
    ensures r.Success? ==> r.value == n
    ensures r.Failure? ==> r.error == BadPlayersCount(n)
  {
    if n != 2 && n != 3 then Failure(BadPlayersCount(n)) else Success(n)
  }

  function AllowedPositions(players: PlayersCount): (r: seq<Position>)
    ensures |r| == players
    ensures SB in r && BB in r && (BTN in r <==> players == 3)
    ensures forall i, j :: 0 <= i < j < |r| ==> r[i] != r[j]
    ensures r[|r| - 2] == SB && r[|r| - 1] == BB
  {
    if players == 2 then [SB, BB] else [BTN, SB, BB]
  }

  /** `list.filter((p) => p !== hero)`. */
  function Without(s: seq<Position>, hero: Position): (r: seq<Position>)
    ensures forall p :: p in r <==> p in s && p != hero
    ensures |r| <= |s|
  {
    if s == [] then []
    else (if s[0] == hero then [] else [s[0]]) + Without(s[1..], hero)
  }

  /** `a` can be obtained from `b` by deleting elements, order kept. */
  predicate IsSubsequence(a: seq<Position>, b: seq<Position>)
    decreases |b|
  {
    if b == [] then a == []
    else (a != [] && a[0] == b[0] && IsSubsequence(a[1..], b[1..])) || IsSubsequence(a, b[1..])
  }

  lemma {:induction false} WithoutIsSubsequence(s: seq<Position>, hero: Position)
    ensures IsSubsequence(Without(s, hero), s)
  {
    if s != [] {
      WithoutIsSubsequence(s[1..], hero);
      if s[0] != hero {
        assert Without(s, hero) == [s[0]] + Without(s[1..], hero);
        assert Without(s, hero)[1..] == Without(s[1..], hero);
      } else {
        assert Without(s, hero) == Without(s[1..], hero);
      }
    }
  }

  lemma {:induction false} WithoutAbsent(s: seq<Position>, hero: Position)
    requires hero !in s
    ensures Without(s, hero) == s
  {
    if s != [] {
      WithoutAbsent(s[1..], hero);
    }
  }

  /** Every seat allowed at the table except the hero's, in table order. */
  function AllVillainPositions(players: PlayersCount, hero: Position): (r: seq<Position>)
    ensures forall p :: p in r <==> p in AllowedPositions(players) && p != hero
    ensures IsSubsequence(r, AllowedPositions(players))
    ensures hero !in AllowedPositions(players) ==> r == AllowedPositions(players)
  {
    var r := Without(AllowedPositions(players), hero);
    WithoutIsSubsequence(AllowedPositions(players), hero);
    assert hero !in AllowedPositions(players) ==> r == AllowedPositions(players) by {
      if hero !in AllowedPositions(players) {
        WithoutAbsent(AllowedPositions(players), hero);
      }
    }
    r
  }

  /** The position whose enum value is `name`, if any. */
  function PositionNamed(name: string): (r: Option<Position>)
    ensures r.Some? ==> r.value.Name() == name
    ensures r.None? ==> forall p: Position :: p.Name() != name
  {
    if name == "BTN" then Some(BTN)
    else if name == "SB" then Some(SB)
    else if name == "BB" then Some(BB)
    else None
  }

  /** `pos.toUpperCase()` must name a seat allowed at this table size. */
  function ParsePosition(pos: string, players: PlayersCount): (r: Result<Position, SeatError>)
    ensures r.Success? <==>
      exists p :: p in AllowedPositions(players) && p.Name() == Text.UpperAscii(pos)
    ensures r.Success? ==>
      r.value in AllowedPositions(players) && r.value.Name() == Text.UpperAscii(pos)
    ensures r.Failure? ==> r.error == BadPosition(pos, players)
  {
    var p := PositionNamed(Text.UpperAscii(pos));
    if p.None? || p.value !in AllowedPositions(players) then
      Failure(BadPosition(pos, players))
    else Success(p.value)
  }

  /** Parsing ignores the case of its input. */
  lemma ParsePositionIgnoresCase(pos: string, players: PlayersCount)
    ensures ParsePosition(Text.UpperAscii(pos), players).Success?
        <==> ParsePosition(pos, players).Success?
    ensures ParsePosition(pos, players).Success? ==>
      ParsePosition(Text.UpperAscii(pos), players).value == ParsePosition(pos, players).value
  {
    Text.UpperAsciiIdempotent(pos);
  }

  /** The examples the source states: a heads-up table has no button, and a
      heads-up small blind faces the big blind. */
  lemma HeadsUpHasNoButton()
    ensures ParsePosition("btn", 2).Failure?
  {
    assert Text.UpperAscii("btn") == "BTN";
  }

  lemma SeatExamples()
    ensures ParsePosition("sb", 2) == Success(SB)
    ensures ParsePosition("Btn", 3) == Success(BTN)
  {
    assert Text.UpperAscii("sb") == "SB";
    assert Text.UpperAscii("Btn") == "BTN";
  }

  lemma VillainExamples()
    ensures BB in AllVillainPositions(2, SB)
    ensures AllVillainPositions(3, SB) == [BTN, BB]
  {
  }
}
