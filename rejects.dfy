/**
 * The subset simulation of src/rejects.rs over a given arena of states and
 * start index. The frontier is a set of arena indices; `epsilon_transition`
 * follows Split edges, `character_transition` follows one Transition, and
 * `is_match` advances the frontier character by character.
 *
 * `epsilon_transition` keeps no visited set, so it terminates only when the
 * Split edges form no cycle. That is stated by a ghost `rank`: every Split
 * edge leads to a state of strictly lower rank.
 */
module Rejects {
  import opened Wrappers
  import opened Nfa

  /** The successors a state reaches without reading a character. */
  function EpsilonSuccessors(s: State): (r: set<nat>)
    ensures r <= Successors(s)
  {
    match s
    case Split(out1, out2) => {out1} + (if out2.Some? then {out2.value} else {})
    case _ => {}
  }

  /**
   * Every index in `xs` addresses a state of an arena of length `n`: the
   * counterpart, for frontiers, of Nfa.InArena. A frontier is a `HashSet` in
   * the matcher and a fragment's exits a `Vec` in the builder, so one
   * predicate is over a set and the other over a sequence.
   */
  predicate InBounds(xs: set<nat>, n: nat)
  {
    forall x | x in xs :: x < n
  }

  /**
   * The arena is closed and `rank` strictly decreases along every Split edge,
   * so no chain of Split edges is a cycle.
   */
  predicate Ranked(states: seq<State>, rank: seq<nat>)
  {
    && Closed(states)
    && |rank| == |states|
    && forall i | 0 <= i < |states| ::
         forall t | t in EpsilonSuccessors(states[i]) :: t < |states| && rank[t] < rank[i]
  }

  /** An automaton `is_match` runs on: a ranked arena and a start inside it. */
  predicate WellFormed(states: seq<State>, start: nat, rank: seq<nat>)
  {
    Ranked(states, rank) && start < |states|
  }

  /** `S` has every Split successor of each of its members. */
  predicate EpsilonClosed(states: seq<State>, S: set<nat>)
    requires InBounds(S, |states|)
  {
    forall j | j in S :: EpsilonSuccessors(states[j]) <= S
  }

  /**
   * What `epsilon_transition(_, i)` inserts: the Split successors of `i`,
   * each followed by what it inserts in turn.
   */
  ghost function Epsilon(states: seq<State>, rank: seq<nat>, i: nat): (r: set<nat>)
    requires Ranked(states, rank) && i < |states|
    ensures InBounds(r, |states|)
    decreases rank[i]
  {
    match states[i]
    case Split(out1, out2) =>
      assert out1 in EpsilonSuccessors(states[i]);
      assert out2.Some? ==> out2.value in EpsilonSuccessors(states[i]);
      {out1} + Epsilon(states, rank, out1)
      + (if out2.Some? then {out2.value} + Epsilon(states, rank, out2.value) else {})
    case _ => {}
  }

  /** What `character_transition(_, i, c)` inserts. */
  ghost function CharStep(states: seq<State>, rank: seq<nat>, i: nat, c: char): (r: set<nat>)
    requires Ranked(states, rank) && i < |states|
    ensures InBounds(r, |states|)
  {
    match TransitionOn(states[i], c)
    case Some(out) =>
      assert out in Successors(states[i]);
      {out} + Epsilon(states, rank, out)
    case None => {}
  }

  /** The frontier after one character: everything each member's step inserts. */
  ghost function Step(states: seq<State>, rank: seq<nat>, S: set<nat>, c: char): (r: set<nat>)
    requires Ranked(states, rank) && InBounds(S, |states|)
    ensures InBounds(r, |states|)
  {
    set i, t | i in S && t in CharStep(states, rank, i, c) :: t
  }

  /** The frontier `is_match` starts from: `start` and what it reaches by Split edges. */
  ghost function Initial(states: seq<State>, rank: seq<nat>, start: nat): (r: set<nat>)
    requires WellFormed(states, start, rank)
    ensures InBounds(r, |states|) && start in r
  {
    {start} + Epsilon(states, rank, start)
  }

  /** The frontier after reading `s` from `S`, character by character. */
  ghost function Run(states: seq<State>, rank: seq<nat>, S: set<nat>, s: string): (r: set<nat>)
    requires Ranked(states, rank) && InBounds(S, |states|)
    ensures InBounds(r, |states|)
    decreases |s|
  {
    if s == [] then S else Run(states, rank, Step(states, rank, S, s[0]), s[1..])
  }

  predicate HasMatch(states: seq<State>, S: set<nat>)
    requires InBounds(S, |states|)
  {
    exists i | i in S :: states[i].Match?
  }

  /**
   * The automaton accepts `s`: the frontier after `s` holds a Match state,
   * so in particular that frontier is not empty.
   */
  ghost predicate Accepts(states: seq<State>, rank: seq<nat>, start: nat, s: string): (r: bool)
    requires WellFormed(states, start, rank)
    ensures r ==> Run(states, rank, Initial(states, rank, start), s) != {}
  {
    HasMatch(states, Run(states, rank, Initial(states, rank, start), s))
  }

  /** Transition, Match and Nil states have no Split successors to insert. */
  lemma EpsilonOfNonSplit(states: seq<State>, rank: seq<nat>, i: nat)
    requires Ranked(states, rank) && i < |states| && !states[i].Split?
    ensures Epsilon(states, rank, i) == {}
  {
  }

  /** `epsilon_transition` inserts the Split successors of its state. */
  lemma EpsilonHasSuccessors(states: seq<State>, rank: seq<nat>, i: nat)
    requires Ranked(states, rank) && i < |states|
    ensures EpsilonSuccessors(states[i]) <= Epsilon(states, rank, i)
  {
  }

  /** What `epsilon_transition` inserts is closed under Split edges. */
  lemma {:induction false} EpsilonIsClosed(states: seq<State>, rank: seq<nat>, i: nat)
    requires Ranked(states, rank) && i < |states|
    ensures EpsilonClosed(states, Epsilon(states, rank, i))
    decreases rank[i]
  {
    if states[i].Split? {
      var out1, out2 := states[i].out1, states[i].out2;
      EpsilonIsClosed(states, rank, out1);
      EpsilonHasSuccessors(states, rank, out1);
      if out2.Some? {
        EpsilonIsClosed(states, rank, out2.value);
        EpsilonHasSuccessors(states, rank, out2.value);
      }
    }
  }

  /**
   * ... and it is the least such set: any Split-closed set holding the Split
   * successors of `i` holds everything `epsilon_transition(_, i)` inserts.
   */
  lemma {:induction false} EpsilonIsLeast(states: seq<State>, rank: seq<nat>, i: nat, S: set<nat>)
    requires Ranked(states, rank) && i < |states| && InBounds(S, |states|)
    requires EpsilonSuccessors(states[i]) <= S && EpsilonClosed(states, S)
    ensures Epsilon(states, rank, i) <= S
    decreases rank[i]
  {
    if states[i].Split? {
      var out1, out2 := states[i].out1, states[i].out2;
      EpsilonIsLeast(states, rank, out1, S);
      if out2.Some? {
        EpsilonIsLeast(states, rank, out2.value, S);
      }
    }
  }

  /**
   * `character_transition` inserts `out` and what `epsilon_transition(_, out)`
   * inserts exactly when `transition(c)` gives `Some(out)`, and nothing otherwise.
   */
  lemma CharStepFollowsTransition(states: seq<State>, rank: seq<nat>, i: nat, c: char)
    requires Ranked(states, rank) && i < |states|
    ensures TransitionOn(states[i], c).None? ==> CharStep(states, rank, i, c) == {}
    ensures TransitionOn(states[i], c).Some? ==>
      var out := TransitionOn(states[i], c).value;
      out < |states| && CharStep(states, rank, i, c) == {out} + Epsilon(states, rank, out)
  {
    if TransitionOn(states[i], c).Some? {
      assert TransitionOn(states[i], c).value in Successors(states[i]);
    }
  }

  /** The frontier after one character is the union of the members' steps. */
  lemma StepAdd(states: seq<State>, rank: seq<nat>, S: set<nat>, i: nat, c: char)
    requires Ranked(states, rank) && InBounds(S, |states|) && i < |states|
    ensures Step(states, rank, S + {i}, c) == Step(states, rank, S, c) + CharStep(states, rank, i, c)
  {
    var lhs := Step(states, rank, S + {i}, c);
    var rhs := Step(states, rank, S, c) + CharStep(states, rank, i, c);
    forall t | t in rhs
      ensures t in lhs
    {
      if t !in CharStep(states, rank, i, c) {
        var j :| j in S && t in CharStep(states, rank, j, c);
      }
    }
  }

  /** An empty frontier stays empty. */
  lemma {:induction false} RunFromEmpty(states: seq<State>, rank: seq<nat>, s: string)
    requires Ranked(states, rank)
    ensures Run(states, rank, {}, s) == {}
    decreases |s|
  {
    if s != [] {
      assert Step(states, rank, {}, s[0]) == {};
      RunFromEmpty(states, rank, s[1..]);
    }
  }

  /** Reading `s` is reading its first `k` characters, then the rest. */
  lemma {:induction false} RunSplit(states: seq<State>, rank: seq<nat>, S: set<nat>, s: string, k: nat)
    requires Ranked(states, rank) && InBounds(S, |states|) && k <= |s|
    ensures Run(states, rank, S, s) == Run(states, rank, Run(states, rank, S, s[..k]), s[k..])
    decreases k
  {
    if k > 0 {
      var S' := Step(states, rank, S, s[0]);
      RunSplit(states, rank, S', s[1..], k - 1);
      assert Run(states, rank, S, s) == Run(states, rank, S', s[1..]);
      assert s[..k][0] == s[0];
      assert s[..k][1..] == s[1..][..k - 1];
      assert Run(states, rank, S, s[..k]) == Run(states, rank, S', s[1..][..k - 1]);
      assert s[1..][k - 1..] == s[k..];
    }
  }

  /**
   * Once a prefix of `s` leaves the frontier empty, `s` is rejected whatever
   * follows; this is what the early `return false` relies on.
   */
  lemma EmptyPrefixRejects(states: seq<State>, rank: seq<nat>, start: nat, s: string, k: nat)
    requires WellFormed(states, start, rank) && k <= |s|
    requires Run(states, rank, Initial(states, rank, start), s[..k]) == {}
    ensures !Accepts(states, rank, start, s)
  {
    RunSplit(states, rank, Initial(states, rank, start), s, k);
    RunFromEmpty(states, rank, s[k..]);
  }

  /** The empty string is accepted iff `start` or its Split closure is a Match state. */
  lemma AcceptsEmpty(states: seq<State>, rank: seq<nat>, start: nat)
    requires WellFormed(states, start, rank)
    ensures Accepts(states, rank, start, "") <==>
      states[start].Match? || exists i | i in Epsilon(states, rank, start) :: states[i].Match?
  {
  }

  /** A state is the start or a successor index stored in some state. */
  predicate Stored(states: seq<State>, start: nat, t: nat)
  {
    t == start || exists j | 0 <= j < |states| :: t in Successors(states[j])
  }

  lemma {:induction false} EpsilonStored(states: seq<State>, rank: seq<nat>, start: nat, i: nat)
    requires Ranked(states, rank) && i < |states|
    ensures forall t | t in Epsilon(states, rank, i) :: Stored(states, start, t)
    decreases rank[i]
  {
    if states[i].Split? {
      var out1, out2 := states[i].out1, states[i].out2;
      assert out1 in Successors(states[i]);
      EpsilonStored(states, rank, start, out1);
      if out2.Some? {
        assert out2.value in Successors(states[i]);
        EpsilonStored(states, rank, start, out2.value);
      }
    }
  }

  /** Every frontier element is `start` or a successor index stored in some state. */
  lemma {:induction false} FrontierStored(states: seq<State>, rank: seq<nat>, start: nat, S: set<nat>, s: string)
    requires Ranked(states, rank) && InBounds(S, |states|)
    requires forall t | t in S :: Stored(states, start, t)
    ensures forall t | t in Run(states, rank, S, s) :: Stored(states, start, t)
    decreases |s|
  {
    if s != [] {
      var S' := Step(states, rank, S, s[0]);
      forall t | t in S'
        ensures Stored(states, start, t)
      {
        var i :| i in S && t in CharStep(states, rank, i, s[0]);
        var out := TransitionOn(states[i], s[0]).value;
        assert out in Successors(states[i]);
        EpsilonStored(states, rank, start, out);
      }
      FrontierStored(states, rank, start, S', s[1..]);
    }
  }

  /** ... in particular every frontier `is_match` builds. */
  lemma RunStored(states: seq<State>, rank: seq<nat>, start: nat, s: string)
    requires WellFormed(states, start, rank)
    ensures forall t | t in Run(states, rank, Initial(states, rank, start), s) :: Stored(states, start, t)
  {
    EpsilonStored(states, rank, start, start);
    FrontierStored(states, rank, start, Initial(states, rank, start), s);
  }

  /**
   * The automaton's language, independently of frontiers: `j` is reached from
   * `i` reading `s` in at most `n` moves, each move following a Split edge
   * without reading, or the Transition edge `transition` allows on the next
   * character of `s`.
   */
  ghost predicate Reach(states: seq<State>, i: nat, s: string, j: nat, n: nat)
    decreases n
  {
    && i < |states|
    && (|| (i == j && s == [])
        || (&& n > 0
            && match states[i]
               case Split(out1, out2) =>
                 Reach(states, out1, s, j, n - 1) || (out2.Some? && Reach(states, out2.value, s, j, n - 1))
               case Transition(_, _, _) =>
                 && s != [] && TransitionOn(states[i], s[0]).Some?
                 && Reach(states, TransitionOn(states[i], s[0]).value, s[1..], j, n - 1)
               case _ => false))
  }

  /** Some path from `start` spells `s` and ends at a Match state. */
  ghost predicate Recognizes(states: seq<State>, start: nat, s: string)
  {
    exists n: nat, j: nat | j < |states| :: Reach(states, start, s, j, n) && states[j].Match?
  }

  lemma {:induction false} ReachMore(states: seq<State>, i: nat, s: string, j: nat, n: nat, m: nat)
    requires Reach(states, i, s, j, n) && n <= m
    ensures Reach(states, i, s, j, m)
    decreases n
  {
    if i == j && s == [] {
    } else if states[i].Split? {
      var out1, out2 := states[i].out1, states[i].out2;
      if Reach(states, out1, s, j, n - 1) {
        ReachMore(states, out1, s, j, n - 1, m - 1);
      } else {
        ReachMore(states, out2.value, s, j, n - 1, m - 1);
      }
    } else if states[i].Transition? {
      ReachMore(states, TransitionOn(states[i], s[0]).value, s[1..], j, n - 1, m - 1);
    }
  }

  /** A path that reads nothing, followed by a path reading `s`, is a path reading `s`. */
  lemma {:induction false} ReachSilentThen(states: seq<State>, i: nat, t: nat, s: string, j: nat, n1: nat, n2: nat)
    requires Reach(states, i, [], t, n1) && Reach(states, t, s, j, n2)
    ensures Reach(states, i, s, j, n1 + n2)
    decreases n1
  {
    if i == t {
      ReachMore(states, t, s, j, n2, n1 + n2);
    } else if states[i].Split? {
      var out1, out2 := states[i].out1, states[i].out2;
      if Reach(states, out1, [], t, n1 - 1) {
        ReachSilentThen(states, out1, t, s, j, n1 - 1, n2);
      } else {
        ReachSilentThen(states, out2.value, t, s, j, n1 - 1, n2);
      }
    }
  }

  /** Everything `epsilon_transition(_, i)` inserts is reached from `i` without reading. */
  lemma {:induction false} EpsilonReached(states: seq<State>, rank: seq<nat>, i: nat, j: nat)
    requires Ranked(states, rank) && i < |states| && j in Epsilon(states, rank, i)
    ensures exists n: nat :: Reach(states, i, [], j, n)
    decreases rank[i]
  {
    var out1, out2 := states[i].out1, states[i].out2;
    assert out1 in EpsilonSuccessors(states[i]);
    if j == out1 || (out2.Some? && j == out2.value) {
      assert Reach(states, j, [], j, 0);
      assert Reach(states, i, [], j, 1);
    } else if j in Epsilon(states, rank, out1) {
      EpsilonReached(states, rank, out1, j);
      var n: nat :| Reach(states, out1, [], j, n);
      assert Reach(states, i, [], j, n + 1);
    } else {
      assert out2.value in EpsilonSuccessors(states[i]);
      EpsilonReached(states, rank, out2.value, j);
      var n: nat :| Reach(states, out2.value, [], j, n);
      assert Reach(states, i, [], j, n + 1);
    }
  }

  /** Every member of the frontier after `s` is reached reading `s` from a member of `S`. */
  lemma {:induction false} RunReached(states: seq<State>, rank: seq<nat>, S: set<nat>, s: string, j: nat)
    requires Ranked(states, rank) && InBounds(S, |states|) && j in Run(states, rank, S, s)
    ensures exists i: nat, n: nat | i in S :: Reach(states, i, s, j, n)
    decreases |s|
  {
    if s == [] {
      assert Reach(states, j, s, j, 0);
    } else {
      var c := s[0];
      var S' := Step(states, rank, S, c);
      RunReached(states, rank, S', s[1..], j);
      var t: nat, n: nat :| t in S' && Reach(states, t, s[1..], j, n);
      var k :| k in S && t in CharStep(states, rank, k, c);
      CharStepFollowsTransition(states, rank, k, c);
      var out := TransitionOn(states[k], c).value;
      if t == out {
        assert Reach(states, k, s, j, n + 1);
      } else {
        EpsilonReached(states, rank, out, t);
        var m: nat :| Reach(states, out, [], t, m);
        ReachSilentThen(states, out, t, s[1..], j, m, n);
        assert Reach(states, k, s, j, m + n + 1);
      }
    }
  }

  /** A frontier after one character is Split-closed. */
  lemma StepIsClosed(states: seq<State>, rank: seq<nat>, S: set<nat>, c: char)
    requires Ranked(states, rank) && InBounds(S, |states|)
    ensures EpsilonClosed(states, Step(states, rank, S, c))
  {
    var S' := Step(states, rank, S, c);
    forall t | t in S'
      ensures EpsilonSuccessors(states[t]) <= S'
    {
      var k :| k in S && t in CharStep(states, rank, k, c);
      CharStepFollowsTransition(states, rank, k, c);
      var out := TransitionOn(states[k], c).value;
      assert CharStep(states, rank, k, c) <= S';
      EpsilonHasSuccessors(states, rank, out);
      if t != out {
        EpsilonIsClosed(states, rank, out);
      }
    }
  }

  /** The initial frontier is Split-closed. */
  lemma InitialIsClosed(states: seq<State>, rank: seq<nat>, start: nat)
    requires WellFormed(states, start, rank)
    ensures EpsilonClosed(states, Initial(states, rank, start))
  {
    EpsilonHasSuccessors(states, rank, start);
    EpsilonIsClosed(states, rank, start);
  }

  /** From a Split-closed frontier, every path reading `s` ends in the frontier after `s`. */
  lemma {:induction false} ReachedInRun(states: seq<State>, rank: seq<nat>, S: set<nat>, i: nat, s: string, j: nat, n: nat)
    requires Ranked(states, rank) && InBounds(S, |states|) && EpsilonClosed(states, S)
    requires i in S && Reach(states, i, s, j, n)
    ensures j in Run(states, rank, S, s)
    decreases n
  {
    if i == j && s == [] {
    } else if states[i].Split? {
      var out1, out2 := states[i].out1, states[i].out2;
      assert out1 in S && (out2.Some? ==> out2.value in S) by {
        assert EpsilonSuccessors(states[i]) <= S;
      }
      if Reach(states, out1, s, j, n - 1) {
        ReachedInRun(states, rank, S, out1, s, j, n - 1);
      } else {
        ReachedInRun(states, rank, S, out2.value, s, j, n - 1);
      }
    } else if states[i].Transition? {
      var c := s[0];
      var out := TransitionOn(states[i], c).value;
      var S' := Step(states, rank, S, c);
      assert j in Run(states, rank, S', s[1..]) by {
        assert out in S' by {
          CharStepFollowsTransition(states, rank, i, c);
        }
        StepIsClosed(states, rank, S, c);
        ReachedInRun(states, rank, S', out, s[1..], j, n - 1);
      }
    }
  }

  /**
   * The subset simulation is exact: the frontier after `s` holds a Match state
   * iff some path from `start` spells `s` and ends at a Match state.
   */
  lemma AcceptsIffRecognizes(states: seq<State>, rank: seq<nat>, start: nat, s: string)
    requires WellFormed(states, start, rank)
    ensures Accepts(states, rank, start, s) <==> Recognizes(states, start, s)
  {
    var init := Initial(states, rank, start);
    if Accepts(states, rank, start, s) {
      var j :| j in Run(states, rank, init, s) && states[j].Match?;
      RunReached(states, rank, init, s, j);
      var i: nat, n: nat :| i in init && Reach(states, i, s, j, n);
      if i == start {
        assert Reach(states, start, s, j, n);
      } else {
        EpsilonReached(states, rank, start, i);
        var m: nat :| Reach(states, start, [], i, m);
        ReachSilentThen(states, start, i, s, j, m, n);
      }
    }
    if Recognizes(states, start, s) {
      var n: nat, j: nat :| j < |states| && Reach(states, start, s, j, n) && states[j].Match?;
      InitialIsClosed(states, rank, start);
      ReachedInRun(states, rank, init, start, s, j, n);
    }
  }

  /** The matcher `Rejects { start, statelist }`, with the ghost witness of acyclic Split edges. */
  class Rejects {
    const start: nat
    const statelist: seq<State>
    ghost const rank: seq<nat>

    ghost predicate Valid()
    {
      WellFormed(statelist, start, rank)
    }

    constructor (start: nat, statelist: seq<State>, ghost rank: seq<nat>)
      requires WellFormed(statelist, start, rank)
      ensures this.start == start && this.statelist == statelist && this.rank == rank
      ensures Valid()
    {
      this.start := start;
      this.statelist := statelist;
      this.rank := rank;
    }

    /** `is_match`: whether the automaton accepts all of `s`. */
    method IsMatch(s: string) returns (b: bool)
      requires Valid()
      ensures b == Accepts(statelist, rank, start, s)
      ensures b <==> Recognizes(statelist, start, s)
    {
      var states := {start};
      states := EpsilonTransition(states, start);
      ghost var initial := Initial(statelist, rank, start);
      var k := 0;
      while k < |s|
        invariant k <= |s|
        invariant InBounds(states, |statelist|)
        invariant Run(statelist, rank, states, s[k..]) == Run(statelist, rank, initial, s)
      {
        var c := s[k];
        var newstates := {};
        var todo := states;
        while todo != {}
          invariant todo <= states
          invariant InBounds(newstates, |statelist|)
          invariant newstates == Step(statelist, rank, states - todo, c)
          decreases |todo|
        {
          var state :| state in todo;
          StepAdd(statelist, rank, states - todo, state, c);
          assert states - (todo - {state}) == (states - todo) + {state};
          newstates := CharacterTransition(newstates, state, c);
          todo := todo - {state};
        }
        assert states - todo == states;
        assert Run(statelist, rank, newstates, s[k + 1..]) == Run(statelist, rank, states, s[k..]) by {
          assert s[k..][0] == c && s[k..][1..] == s[k + 1..];
        }
        if newstates == {} {
          RunFromEmpty(statelist, rank, s[k + 1..]);
          AcceptsIffRecognizes(statelist, rank, start, s);
          return false;
        }
        states := newstates;
        k := k + 1;
      }
      b := false;
      var rest := states;
      while rest != {} && !b
        invariant rest <= states
        invariant b ==> HasMatch(statelist, states)
        invariant !b ==> !HasMatch(statelist, states - rest)
        decreases |rest|
      {
        var n :| n in rest;
        b := statelist[n].Match?;
        rest := rest - {n};
      }
      assert s[|s|..] == [];
      AcceptsIffRecognizes(statelist, rank, start, s);
    }

    /** `character_transition`: `newstates` plus what one step from `state` on `symbol` reaches. */
    method CharacterTransition(newstates: set<nat>, state: nat, symbol: char) returns (r: set<nat>)
      requires Valid() && state < |statelist|
      ensures r == newstates + CharStep(statelist, rank, state, symbol)
    {
      r := newstates;
      var next := TransitionOn(statelist[state], symbol);
      if next.Some? {
        assert next.value in Successors(statelist[state]);
        r := r + {next.value};
        r := EpsilonTransition(r, next.value);
      }
    }

    /** `epsilon_transition`: `newstates` plus everything reachable from `state` by Split edges. */
    method EpsilonTransition(newstates: set<nat>, state: nat) returns (r: set<nat>)
      requires Valid() && state < |statelist|
      ensures r == newstates + Epsilon(statelist, rank, state)
      decreases rank[state]
    {
      r := newstates;
      match statelist[state]
      case Split(out1, out2) =>
        r := r + {out1};
        r := EpsilonTransition(r, out1);
        if out2.Some? {
          r := r + {out2.value};
          r := EpsilonTransition(r, out2.value);
        }
      case _ =>
    }
  }
}
