/**
 * The automaton arena of src/nfa.rs: the four kinds of state, the character
 * predicate of a transition, patching of an unresolved successor slot, and
 * the Thompson fragment algebra over an append-only list of states whose
 * successors are indices into that list.
 */
module Nfa {
  import opened Wrappers

  /** One automaton state; successors are positions in the arena. */
  datatype State =
    | Transition(inclusive: set<char>, exclusive: set<char>, out: Option<nat>)
    | Split(out1: nat, out2: Option<nat>)
    | Match
    | Nil

  /** A partial automaton: its entry state and its unresolved exits ("danglers"). */
  datatype Fragment = Fragment(start: nat, endstates: seq<nat>)

  /** The successor indices a state currently stores. */
  function Successors(s: State): set<nat>
  {
    match s
    case Transition(_, _, out) => if out.Some? then {out.value} else {}
    case Split(out1, out2) => {out1} + (if out2.Some? then {out2.value} else {})
    case _ => {}
  }

  /** The state has a successor slot that is still unresolved. */
  predicate Dangles(s: State)
  {
    (s.Transition? && s.out.None?) || (s.Split? && s.out2.None?)
  }

  /** Every index in `ds` addresses a state of an arena of length `n`. */
  predicate InArena(ds: seq<nat>, n: nat)
  {
    forall i | 0 <= i < |ds| :: ds[i] < n
  }

  /** Every stored successor of every state lies inside the arena. */
  predicate Closed(states: seq<State>)
  {
    forall i | 0 <= i < |states| :: forall j | j in Successors(states[i]) :: j < |states|
  }

  /**
   * The shape the fragment algebra keeps: the arena is closed, the fragment's
   * start and exits lie inside it, and every exit is an unresolved slot.
   */
  predicate WellBuilt(states: seq<State>, f: Fragment)
  {
    && Closed(states)
    && f.start < |states|
    && InArena(f.endstates, |states|)
    && forall d | d in f.endstates :: Dangles(states[d])
  }

  /**
   * `set_out`: fill the one patchable slot of a state, `out` of a Transition
   * or `out2` of a Split; Match and Nil have no slot and stay as they are.
   */
  function SetOut(s: State, newout: nat): (r: State)
    ensures s.Transition? ==> r == Transition(s.inclusive, s.exclusive, Some(newout))
    ensures s.Split? ==> r == Split(s.out1, Some(newout))
    ensures s.Match? || s.Nil? ==> r == s
  {
    match s
    case Transition(inclusive, exclusive, _) => Transition(inclusive, exclusive, Some(newout))
    case Split(out1, _) => Split(out1, Some(newout))
    case _ => s
  }

  /**
   * Patching a dangling slot resolves it and adds exactly the new edge;
   * patching twice with the same target changes nothing more.
   */
  lemma SetOutAddsEdge(s: State, t: nat)
    ensures Dangles(s) ==> !Dangles(SetOut(s, t)) && Successors(SetOut(s, t)) == Successors(s) + {t}
    ensures !s.Transition? && !s.Split? ==> SetOut(s, t) == s
    ensures SetOut(SetOut(s, t), t) == SetOut(s, t)
  {
  }

  /**
   * `transition(c)`: the successor reached on `c`. A Transition with a
   * non-empty inclusive set admits exactly its members, one with a non-empty
   * exclusive set admits every non-member, one with both sets empty admits
   * every character; Split, Match and Nil never consume.
   */
  function TransitionOn(s: State, c: char): (r: Option<nat>)
    ensures !s.Transition? ==> r == None
    ensures s.Transition? && s.inclusive == {} && s.exclusive == {} ==> r == s.out
    ensures s.Transition? && s.inclusive != {} && s.exclusive == {} ==>
      r == if c in s.inclusive then s.out else None
    ensures s.Transition? && s.inclusive == {} && s.exclusive != {} ==>
      r == if c in s.exclusive then None else s.out
    ensures s.Transition? && s.inclusive != {} && s.exclusive != {} ==>
      r == if c in s.inclusive || c !in s.exclusive then s.out else None
  {
    match s
    case Transition(inclusive, exclusive, out) =>
      if (|inclusive| > 0 && c in inclusive)
         || (|exclusive| > 0 && c !in exclusive)
         || (|inclusive| == 0 && |exclusive| == 0)
      then out
      else None
    case _ => None
  }

  /**
   * A leaf built by `characters` and one built by `non_characters` over the
   * same non-empty set admit complementary characters.
   */
  lemma NonCharactersComplement(chars: set<char>, out: nat, c: char)
    requires chars != {}
    ensures TransitionOn(Transition(chars, {}, Some(out)), c).Some?
        <==> TransitionOn(Transition({}, chars, Some(out)), c).None?
  {
  }

  /** `make_inclusive_exclusive_transition`: both sets kept, `out` unresolved. */
  function MakeInclusiveExclusiveTransition(inclusive: set<char>, exclusive: set<char>): (r: State)
    ensures r.Transition? && Dangles(r)
    ensures r.inclusive == inclusive && r.exclusive == exclusive
  {
    Transition(inclusive, exclusive, None)
  }

  /** `make_inclusive_transition`: the given set admitted, nothing excluded. */
  function MakeInclusiveTransition(chars: set<char>): (r: State)
    ensures r == MakeInclusiveExclusiveTransition(chars, {})
  {
    Transition(chars, {}, None)
  }

  /** `make_exclusive_transition`: the given set excluded, nothing admitted. */
  function MakeExclusiveTransition(chars: set<char>): (r: State)
    ensures r == MakeInclusiveExclusiveTransition({}, chars)
  {
    Transition({}, chars, None)
  }

  /**
   * `make_transition`: builds an unresolved transition and patches `out`
   * only when one is given, which yields exactly the requested state.
   */
  function MakeTransition(inclusive: set<char>, exclusive: set<char>, out: Option<nat>): (r: State)
    ensures r == Transition(inclusive, exclusive, out)
  {
    var tran := MakeInclusiveExclusiveTransition(inclusive, exclusive);
    if out.Some? then SetOut(tran, out.value) else tran
  }

  /** The arena after `link(d, to)` for every `d` of `ds`, in order. */
  function LinkAll(states: seq<State>, ds: seq<nat>, to: nat): (r: seq<State>)
    requires InArena(ds, |states|)
    ensures |r| == |states|
    decreases |ds|
  {
    if ds == [] then states
    else
      assert ds[|ds| - 1] in ds;
      var prefix := LinkAll(states, ds[..|ds| - 1], to);
      var d := ds[|ds| - 1];
      prefix[d := SetOut(prefix[d], to)]
  }

  /**
   * Linking a list of danglers patches exactly the listed indices (each
   * once, however often it is listed) and leaves every other state alone.
   */
  lemma {:induction false} LinkAllAt(states: seq<State>, ds: seq<nat>, to: nat, i: nat)
    requires InArena(ds, |states|)
    requires i < |states|
    ensures LinkAll(states, ds, to)[i] == if i in ds then SetOut(states[i], to) else states[i]
    decreases |ds|
  {
    if ds != [] {
      var k := |ds| - 1;
      LinkAllAt(states, ds[..k], to, i);
      SetOutAddsEdge(states[i], to);
      assert i in ds <==> i in ds[..k] || i == ds[k] by {
        assert ds == ds[..k] + [ds[k]];
      }
    }
  }

  /**
   * Linking danglers to a state inside the arena keeps the arena closed, and
   * danglers not in the list still dangle.
   */
  lemma {:induction false} LinkAllKeepsShape(states: seq<State>, ds: seq<nat>, to: nat)
    requires InArena(ds, |states|)
    requires Closed(states) && to < |states|
    ensures Closed(LinkAll(states, ds, to))
    ensures forall i | 0 <= i < |states| && i !in ds :: LinkAll(states, ds, to)[i] == states[i]
  {
    var r := LinkAll(states, ds, to);
    forall i | 0 <= i < |states|
      ensures forall j | j in Successors(r[i]) :: j < |r|
      ensures i !in ds ==> r[i] == states[i]
    {
      LinkAllAt(states, ds, to, i);
      assert Successors(SetOut(states[i], to)) <= Successors(states[i]) + {to};
    }
  }

  /** `StateList`: the append-only arena that the fragment algebra grows. */
  class StateList {
    var states: seq<State>

    constructor ()
      ensures states == []
    {
      states := [];
    }

    /** `add_state`: push the state and return its index, the old length. */
    method AddState(state: State) returns (index: nat)
      modifies this
      ensures states == old(states) + [state]
      ensures index == |old(states)| && states[index] == state
    {
      states := states + [state];
      index := |states| - 1;
    }

    /** `link(from, to)`: patch the slot of the state at `from` to `to`. */
    method Link(from: nat, to: nat)
      requires from < |states|
      modifies this
      ensures |states| == |old(states)|
      ensures states[from] == SetOut(old(states)[from], to)
      ensures forall i | 0 <= i < |states| && i != from :: states[i] == old(states)[i]
    {
      states := states[from := SetOut(states[from], to)];
    }

    /**
     * `union`: with both operands present, one Split to both starts is
     * appended and becomes the entry; the exits of both are kept.
     */
    method Union(f1opt: Option<Fragment>, f2opt: Option<Fragment>) returns (r: Option<Fragment>)
      modifies this
      ensures f1opt.None? ==> r == None && states == old(states)
      ensures f1opt.Some? && f2opt.None? ==> r == f1opt && states == old(states)
      ensures f1opt.Some? && f2opt.Some? ==>
        && states == old(states) + [Split(f1opt.value.start, Some(f2opt.value.start))]
        && r == Some(Fragment(|old(states)|, f1opt.value.endstates + f2opt.value.endstates))
      ensures f1opt.Some? && f2opt.Some? && WellBuilt(old(states), f1opt.value)
              && WellBuilt(old(states), f2opt.value)
              ==> WellBuilt(states, r.value)
    {
      if f1opt.None? {
        return None;
      }
      var f1 := f1opt.value;
      if f2opt.None? {
        return Some(f1);
      }
      var f2 := f2opt.value;
      var start := AddState(Split(f1.start, Some(f2.start)));
      r := Some(Fragment(start, f1.endstates + f2.endstates));
    }

    /**
     * `concatenation`: every exit of `f1` is linked to the entry of `f2`; the
     * result enters at `f1` and leaves through `f2`'s exits. No state is added.
     */
    method Concatenation(f1opt: Option<Fragment>, f2opt: Option<Fragment>) returns (r: Option<Fragment>)
      requires f1opt.Some? && f2opt.Some? ==> InArena(f1opt.value.endstates, |states|)
      modifies this
      ensures f1opt.None? ==> r == None && states == old(states)
      ensures f1opt.Some? && f2opt.None? ==> r == f1opt && states == old(states)
      ensures f1opt.Some? && f2opt.Some? ==>
        && states == LinkAll(old(states), f1opt.value.endstates, f2opt.value.start)
        && r == Some(Fragment(f1opt.value.start, f2opt.value.endstates))
      ensures f1opt.Some? && f2opt.Some? && WellBuilt(old(states), f1opt.value)
              && WellBuilt(old(states), f2opt.value)
              && (forall d | d in f2opt.value.endstates :: d !in f1opt.value.endstates)
              ==> WellBuilt(states, r.value)
    {
      if f1opt.None? {
        return None;
      }
      var f1 := f1opt.value;
      if f2opt.None? {
        return Some(f1);
      }
      var f2 := f2opt.value;
      ghost var before := states;
      var k := 0;
      while k < |f1.endstates|
        invariant k <= |f1.endstates|
        invariant states == LinkAll(before, f1.endstates[..k], f2.start)
      {
        Link(f1.endstates[k], f2.start);
        assert f1.endstates[..k + 1][..k] == f1.endstates[..k];
        k := k + 1;
      }
      assert f1.endstates[..k] == f1.endstates;
      r := Some(Fragment(f1.start, f2.endstates));
      if WellBuilt(before, f1) && WellBuilt(before, f2)
         && (forall d | d in f2.endstates :: d !in f1.endstates) {
        LinkAllKeepsShape(before, f1.endstates, f2.start);
      }
    }

    /**
     * `unary_operator`: `*`, `?` and `+` apply the matching construction;
     * no operator, or any other character, returns the fragment unchanged.
     */
    method UnaryOperator(f: Option<Fragment>, op: Option<char>) returns (r: Option<Fragment>)
      requires f.Some? && op in {Some('*'), Some('+')} ==> InArena(f.value.endstates, |states| + 1)
      modifies this
      ensures f.None? ==> r == None && states == old(states)
      ensures f.Some? && op !in {Some('*'), Some('?'), Some('+')} ==> r == f && states == old(states)
      ensures f.Some? && op in {Some('*'), Some('+')} ==>
        states == LinkAll(old(states) + [Split(f.value.start, None)], f.value.endstates, |old(states)|)
      ensures f.Some? && op == Some('?') ==> states == old(states) + [Split(f.value.start, None)]
      ensures f.Some? && op == Some('*') ==> r == Some(Fragment(|old(states)|, [|old(states)|]))
      ensures f.Some? && op == Some('?') ==> r == Some(Fragment(|old(states)|, [|old(states)|] + f.value.endstates))
      ensures f.Some? && op == Some('+') ==> r == Some(Fragment(f.value.start, [|old(states)|]))
      ensures f.Some? && WellBuilt(old(states), f.value) ==> WellBuilt(states, r.value)
    {
      if f.None? {
        return None;
      }
      var frag := f.value;
      match op
      case Some('*') =>
        var k := Kleene(frag);
        r := Some(k);
      case Some('?') =>
        var q := QuestionMark(frag);
        r := Some(q);
      case Some('+') =>
        var p := Plus(frag);
        r := Some(p);
      case _ =>
        r := Some(frag);
    }

    /**
     * `kleene` (`*`): append a Split entering `f`, loop every exit of `f`
     * back to it; the Split is both the entry and the only exit.
     */
    method Kleene(f: Fragment) returns (r: Fragment)
      requires InArena(f.endstates, |states| + 1)
      modifies this
      ensures states == LinkAll(old(states) + [Split(f.start, None)], f.endstates, |old(states)|)
      ensures r == Fragment(|old(states)|, [|old(states)|])
      ensures WellBuilt(old(states), f) ==> WellBuilt(states, r)
    {
      var start := AddState(Split(f.start, None));
      ghost var before := states;
      var k := 0;
      while k < |f.endstates|
        invariant k <= |f.endstates|
        invariant InArena(f.endstates, |before|)
        invariant states == LinkAll(before, f.endstates[..k], start)
      {
        Link(f.endstates[k], start);
        assert f.endstates[..k + 1][..k] == f.endstates[..k];
        k := k + 1;
      }
      assert f.endstates[..k] == f.endstates;
      r := Fragment(start, [start]);
      if WellBuilt(old(states), f) {
        assert Closed(before) by {
          forall i | 0 <= i < |before|
            ensures forall j | j in Successors(before[i]) :: j < |before|
          {
            if i < start {
              assert before[i] == old(states)[i];
            }
          }
        }
        LinkAllKeepsShape(before, f.endstates, start);
        assert start !in f.endstates;
      }
    }

    /**
     * `question_mark` (`?`): append a Split entering `f`; nothing is linked,
     * and the exits are the Split followed by the exits of `f`.
     */
    method QuestionMark(f: Fragment) returns (r: Fragment)
      modifies this
      ensures states == old(states) + [Split(f.start, None)]
      ensures r == Fragment(|old(states)|, [|old(states)|] + f.endstates)
      ensures WellBuilt(old(states), f) ==> WellBuilt(states, r)
    {
      var start := AddState(Split(f.start, None));
      r := Fragment(start, [start] + f.endstates);
    }

    /**
     * `plus` (`+`): append a Split entering `f` and loop every exit of `f`
     * to it; the entry stays `f.start`, the only exit is the Split.
     */
    method Plus(f: Fragment) returns (r: Fragment)
      requires InArena(f.endstates, |states| + 1)
      modifies this
      ensures states == LinkAll(old(states) + [Split(f.start, None)], f.endstates, |old(states)|)
      ensures r == Fragment(f.start, [|old(states)|])
      ensures WellBuilt(old(states), f) ==> WellBuilt(states, r)
    {
      var splitter := AddState(Split(f.start, None));
      ghost var before := states;
      var k := 0;
      while k < |f.endstates|
        invariant k <= |f.endstates|
        invariant InArena(f.endstates, |before|)
        invariant states == LinkAll(before, f.endstates[..k], splitter)
      {
        Link(f.endstates[k], splitter);
        assert f.endstates[..k + 1][..k] == f.endstates[..k];
        k := k + 1;
      }
      assert f.endstates[..k] == f.endstates;
      r := Fragment(f.start, [splitter]);
      if WellBuilt(old(states), f) {
        assert Closed(before) by {
          forall i | 0 <= i < |before|
            ensures forall j | j in Successors(before[i]) :: j < |before|
          {
            if i < splitter {
              assert before[i] == old(states)[i];
            }
          }
        }
        LinkAllKeepsShape(before, f.endstates, splitter);
        assert splitter !in f.endstates;
      }
    }

    /** `character`: a leaf admitting exactly `c`. */
    method Character(c: char) returns (r: Fragment)
      modifies this
      ensures states == old(states) + [Transition({c}, {}, None)]
      ensures r == Fragment(|old(states)|, [|old(states)|])
      ensures Closed(old(states)) ==> WellBuilt(states, r)
    {
      r := Characters({c});
    }

    /** `inclusive_exclusive_characters`: a leaf with both sets as given. */
    method InclusiveExclusiveCharacters(inclusive: set<char>, exclusive: set<char>) returns (r: Fragment)
      modifies this
      ensures states == old(states) + [Transition(inclusive, exclusive, None)]
      ensures r == Fragment(|old(states)|, [|old(states)|])
      ensures Closed(old(states)) ==> WellBuilt(states, r)
    {
      var state := AddState(MakeInclusiveExclusiveTransition(inclusive, exclusive));
      r := Fragment(state, [state]);
    }

    /** `characters`: a leaf admitting exactly the members of `chars`. */
    method Characters(chars: set<char>) returns (r: Fragment)
      modifies this
      ensures states == old(states) + [Transition(chars, {}, None)]
      ensures r == Fragment(|old(states)|, [|old(states)|])
      ensures Closed(old(states)) ==> WellBuilt(states, r)
    {
      var state := AddState(MakeInclusiveTransition(chars));
      r := Fragment(state, [state]);
    }

    /** `non_characters`: a leaf admitting everything outside `chars`. */
    method NonCharacters(chars: set<char>) returns (r: Fragment)
      modifies this
      ensures states == old(states) + [Transition({}, chars, None)]
      ensures r == Fragment(|old(states)|, [|old(states)|])
      ensures Closed(old(states)) ==> WellBuilt(states, r)
    {
      var state := AddState(MakeExclusiveTransition(chars));
      r := Fragment(state, [state]);
    }
  }
}
