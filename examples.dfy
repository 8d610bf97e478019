/**
 * The pattern `a*` end to end: its arena is built once with the fragment
 * algebra and once with the builder, and the matcher over it accepts exactly
 * the strings made of `a` alone.
 */
module Examples {
  import opened Wrappers
  import opened Nfa
  import Rejects
  import Builder

  /**
   * `a*` after Thompson's construction, with its one exit linked to a Match
   * state: 0 reads `a` and returns to the Split at 1, which enters 0 or
   * leaves for the Match state at 2. The Split at 1 is the start.
   */
  function AStar(): seq<State>
  {
    [Transition({'a'}, {}, Some(1)), Split(0, Some(2)), Match]
  }

  /** Ranks under which the only Split's edges go down. */
  function AStarRank(): seq<nat>
  {
    [0, 1, 0]
  }

  /** Everything reachable from the start without reading. */
  function AStarFrontier(): set<nat>
  {
    {0, 1, 2}
  }

  /** The fragment algebra builds this arena: `character('a')`, `kleene`, `add_state(Match)`, `link`. */
  method BuildAStar() returns (start: nat, states: seq<State>)
    ensures start == 1 && states == AStar()
    ensures Rejects.WellFormed(states, start, AStarRank())
  {
    var list := new StateList();
    var a := list.Character('a');
    var star := list.Kleene(a);
    assert list.states == [Transition({'a'}, {}, Some(1)), Split(0, None)];
    var accept := list.AddState(Match);
    list.Link(star.endstates[0], accept);
    start := star.start;
    states := list.states;
  }

  /** So does the builder, one state per call. */
  method BuildAStarWithBuilder() returns (start: nat, states: seq<State>)
    ensures start == 1 && states == AStar()
  {
    var b := new Builder.Builder(1);
    b.WithTransition({'a'}, {}, Some(1));
    b.WithSplit(0, Some(2));
    b.WithMatch();
    start := b.start;
    states := b.statelist;
  }

  lemma AStarWellFormed()
    ensures Rejects.WellFormed(AStar(), 1, AStarRank())
  {
    var states := AStar();
    assert Rejects.EpsilonSuccessors(states[1]) == {0, 2};
    assert forall i | 0 <= i < 3 :: Successors(states[i]) <= {0, 1, 2};
  }

  /** Only the Split at 1 has successors reached without reading: 0 and 2. */
  lemma AStarEpsilon()
    ensures Rejects.WellFormed(AStar(), 1, AStarRank())
    ensures Rejects.Epsilon(AStar(), AStarRank(), 0) == {}
    ensures Rejects.Epsilon(AStar(), AStarRank(), 2) == {}
    ensures Rejects.Epsilon(AStar(), AStarRank(), 1) == {0, 2}
  {
    AStarWellFormed();
    var states, rank := AStar(), AStarRank();
    Rejects.EpsilonOfNonSplit(states, rank, 0);
    Rejects.EpsilonOfNonSplit(states, rank, 2);
  }

  /** Only state 0 reads, and only `a`, after which all three states are active again. */
  lemma AStarCharStep(c: char)
    ensures Rejects.WellFormed(AStar(), 1, AStarRank())
    ensures Rejects.CharStep(AStar(), AStarRank(), 0, c) == if c == 'a' then AStarFrontier() else {}
    ensures Rejects.CharStep(AStar(), AStarRank(), 1, c) == {}
    ensures Rejects.CharStep(AStar(), AStarRank(), 2, c) == {}
  {
    AStarEpsilon();
    var states, rank := AStar(), AStarRank();
    assert TransitionOn(states[0], c) == if c == 'a' then Some(1) else None;
    Rejects.CharStepFollowsTransition(states, rank, 0, c);
    Rejects.CharStepFollowsTransition(states, rank, 1, c);
    Rejects.CharStepFollowsTransition(states, rank, 2, c);
  }

  /** Of the whole arena only state 0 contributes to a step: adding 1 and 2 adds nothing. */
  lemma AStarStepFromReader(c: char)
    ensures Rejects.WellFormed(AStar(), 1, AStarRank())
    ensures Rejects.Step(AStar(), AStarRank(), AStarFrontier(), c) == Rejects.CharStep(AStar(), AStarRank(), 0, c)
  {
    AStarStepFromZero(c);
    AStarStepAddOne(c);
    AStarStepAddTwo(c);
  }

  lemma AStarStepFromZero(c: char)
    ensures Rejects.WellFormed(AStar(), 1, AStarRank())
    ensures Rejects.Step(AStar(), AStarRank(), {0}, c) == Rejects.CharStep(AStar(), AStarRank(), 0, c)
  {
    AStarWellFormed();
    var states, rank := AStar(), AStarRank();
    assert Rejects.Step(states, rank, {}, c) == {};
    Rejects.StepAdd(states, rank, {}, 0, c);
    assert {} + {0} == {0};
  }

  lemma AStarStepAddOne(c: char)
    ensures Rejects.WellFormed(AStar(), 1, AStarRank())
    ensures Rejects.Step(AStar(), AStarRank(), {0, 1}, c) == Rejects.Step(AStar(), AStarRank(), {0}, c)
  {
    AStarCharStep(c);
    var states, rank := AStar(), AStarRank();
    Rejects.StepAdd(states, rank, {0}, 1, c);
    assert {0} + {1} == {0, 1};
  }

  lemma AStarStepAddTwo(c: char)
    ensures Rejects.WellFormed(AStar(), 1, AStarRank())
    ensures Rejects.Step(AStar(), AStarRank(), {0, 1, 2}, c) == Rejects.Step(AStar(), AStarRank(), {0, 1}, c)
  {
    AStarCharStep(c);
    var states, rank := AStar(), AStarRank();
    Rejects.StepAdd(states, rank, {0, 1}, 2, c);
    assert {0, 1} + {2} == {0, 1, 2};
  }

  /** From the whole arena, `a` leads back to the whole arena and anything else to nothing. */
  lemma AStarStep(c: char)
    ensures Rejects.WellFormed(AStar(), 1, AStarRank())
    ensures c == 'a' ==> Rejects.Step(AStar(), AStarRank(), AStarFrontier(), c) == AStarFrontier()
    ensures c != 'a' ==> Rejects.Step(AStar(), AStarRank(), AStarFrontier(), c) == {}
  {
    AStarCharStep(c);
    AStarStepFromReader(c);
  }

  predicate OnlyA(s: string)
  {
    forall i | 0 <= i < |s| :: s[i] == 'a'
  }

  lemma OnlyATail(s: string)
    requires s != []
    ensures OnlyA(s) <==> s[0] == 'a' && OnlyA(s[1..])
  {
    assert forall i | 0 <= i < |s[1..]| :: s[1..][i] == s[i + 1];
  }

  /** Reading only `a`s keeps the whole arena active; any other character empties it for good. */
  lemma {:induction false} AStarRun(s: string)
    ensures Rejects.WellFormed(AStar(), 1, AStarRank())
    ensures OnlyA(s) ==> Rejects.Run(AStar(), AStarRank(), AStarFrontier(), s) == AStarFrontier()
    ensures !OnlyA(s) ==> Rejects.Run(AStar(), AStarRank(), AStarFrontier(), s) == {}
    decreases |s|
  {
    AStarWellFormed();
    if s != [] {
      var states, rank, F := AStar(), AStarRank(), AStarFrontier();
      OnlyATail(s);
      if s[0] == 'a' {
        assert Rejects.Run(states, rank, F, s) == Rejects.Run(states, rank, F, s[1..]) by {
          AStarStep('a');
        }
        AStarRun(s[1..]);
      } else {
        assert Rejects.Run(states, rank, F, s) == {} by {
          AStarStep(s[0]);
          Rejects.RunFromEmpty(states, rank, s[1..]);
        }
      }
    }
  }

  /** `a*` accepts a string exactly when every character of it is `a`. */
  lemma AStarLanguage(s: string)
    ensures Rejects.WellFormed(AStar(), 1, AStarRank())
    ensures Rejects.Accepts(AStar(), AStarRank(), 1, s) <==> OnlyA(s)
  {
    AStarRun(s);
    AStarEpsilon();
    assert Rejects.Initial(AStar(), AStarRank(), 1) == AStarFrontier();
    assert AStar()[2].Match?;
  }

  /** `is_match` on the built arena: `""` and `"aaa"` match, `"b"` does not. */
  method MatchAStar() returns (empty: bool, aaa: bool, b: bool)
    ensures empty && aaa && !b
  {
    var start, states := BuildAStar();
    var matcher := new Rejects.Rejects(start, states, AStarRank());
    empty := matcher.IsMatch("");
    aaa := matcher.IsMatch("aaa");
    b := matcher.IsMatch("b");
    AStarLanguage("");
    AStarLanguage("aaa");
    AStarLanguage("b");
  }
}
