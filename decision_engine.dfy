/** The decision engine of the first version: normalise the hand text,
    look it up in the strategy table, and answer a conservative default
    action when the table has nothing for it. */
module Decisions {
  import opened Wrappers
  import opened Json
  import opened Seats
  import LegacyHandLabel
  import LegacyRanges
  import Text

  /** The actions a strategy table speaks of. */
  datatype DecisionAction = Fold | Call | Raise | Shove {
    function Name(): string {
      match this
      case Fold => "fold"
      case Call => "call"
      case Raise => "raise"
      case Shove => "shove"
    }
  }

  /** The scenarios this version knows; the opening one is `FirstIn`. */
  datatype Scenario = FirstIn | VsOpen | VsShove {
    function Name(): string {
      match this
      case FirstIn => "FirstIn"
      case VsOpen => "VsOpen"
      case VsShove => "VsShove"
    }
  }

  datatype DecideInput = DecideInput(players: PlayersCount, depth: int, heroPos: Position,
                                     scenario: Scenario, hand: string, villainPos: Option<Position>)

  /** `action` is whatever the table stores for the hand, or a default. */
  datatype DecideOutput = DecideOutput(action: Json, handLabel: string)

  /** The conservative default for a scenario, by its name: only facing a
      shove does it call; everything else, unknown names included, folds. */
  function Fallback(s: string): (a: DecisionAction)
    ensures a == Call <==> s == "VsShove"
    ensures a != Call ==> a == Fold
  {
    if s == "FirstIn" then Fold
    else if s == "VsOpen" then Fold
    else if s == "VsShove" then Call
    else Fold
  }

  /** A table value that answers the query: `??` passes on `undefined`
      (`None`) and on `null`. */
  predicate Answers(v: Option<Json>) {
    v.Some? && v.value != JNull
  }

  class DecisionEngine {
    /** The repository, only ever read. */
    const ranges: LegacyRanges.RangeRepository

    constructor(ranges: LegacyRanges.RangeRepository)
      ensures this.ranges == ranges
    {
      this.ranges := ranges;
    }

    /** The stored value for the normalised hand, if any. */
    function Lookup(input: DecideInput): Option<Json> {
      ranges.Find(input.players, input.depth, input.heroPos, input.scenario.Name(),
                   LegacyHandLabel.Normalize(input.hand), input.villainPos)
    }

    /** `decide`: always answers, with the label the hand normalises to and
        either the stored value or the scenario's default action. */
    function Decide(input: DecideInput): (r: DecideOutput)
      ensures r.handLabel == LegacyHandLabel.Normalize(input.hand)
      ensures Answers(Lookup(input)) ==> r.action == Lookup(input).value
      ensures !Answers(Lookup(input)) ==> r.action == JStr(Fallback(input.scenario.Name()).Name())
      ensures r.action != JNull
    {
      var handLabel := LegacyHandLabel.Normalize(input.hand);
      var found := ranges.Find(input.players, input.depth, input.heroPos, input.scenario.Name(),
                               handLabel, input.villainPos);
      var action := if found.Some? && found.value != JNull then found.value
                    else JStr(Fallback(input.scenario.Name()).Name());
      DecideOutput(action, handLabel)
    }
  }

  /** The default for each scenario of this version. */
  lemma FallbackExamples()
    ensures Fallback(FirstIn.Name()) == Fold
    ensures Fallback(VsOpen.Name()) == Fold
    ensures Fallback(VsShove.Name()) == Call
    ensures Fallback("VsSqueeze") == Fold
  {
  }

  /** A miss facing a shove calls; any other miss folds. */
  lemma MissFallsBack(engine: DecisionEngine, input: DecideInput)
    requires !Answers(engine.Lookup(input))
    ensures engine.Decide(input).action == JStr(if input.scenario == VsShove then "call" else "fold")
  {
  }

  /** Without a villain seat, only `FirstIn` can be answered by the table. */
  lemma NoVillainFallsBack(engine: DecisionEngine, input: DecideInput)
    requires input.scenario != FirstIn && input.villainPos.None?
    ensures engine.Decide(input).action == JStr(if input.scenario == VsShove then "call" else "fold")
  {
    LegacyRanges.NoVillainMisses(engine.ranges, input.players, input.depth, input.heroPos,
                                 input.scenario.Name(), LegacyHandLabel.Normalize(input.hand));
    assert engine.Lookup(input).None?;
    MissFallsBack(engine, input);
  }

  /** For `FirstIn`, the villain seat makes no difference to the decision. */
  lemma FirstInIgnoresVillain(engine: DecisionEngine, input: DecideInput, v: Option<Position>)
    requires input.scenario == FirstIn
    ensures engine.Decide(input.(villainPos := v)) == engine.Decide(input)
  {
    LegacyRanges.FirstInIgnoresVillain(engine.ranges, input.players, input.depth, input.heroPos,
                                       LegacyHandLabel.Normalize(input.hand), input.villainPos, v);
  }

  /** White space around the hand text makes no difference to the decision. */
  lemma PaddingIgnored(engine: DecisionEngine, input: DecideInput, pre: string, post: string)
    requires Text.AllWhitespace(pre) && Text.AllWhitespace(post)
    ensures engine.Decide(input.(hand := pre + input.hand + post)) == engine.Decide(input)
  {
    LegacyHandLabel.PaddingIgnored(pre, input.hand, post);
  }

  /** Card-by-card text keeps its suits: "AhKs" is looked up as "AHKS". */
  lemma FullCardsLookedUpVerbatim(engine: DecisionEngine, input: DecideInput)
    requires input.hand == "AhKs"
    ensures engine.Decide(input).handLabel == "AHKS"
  {
    LegacyHandLabel.ExampleFullCards();
  }
}
