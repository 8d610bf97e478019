/**
 * The automaton builder of src/builder.rs: a fixed start index and a state
 * list that each call extends by exactly the state it describes, so the
 * i-th call made yields the state at index i.
 */
module Builder {
  import opened Wrappers
  import opened Nfa

  class Builder {
    const start: nat
    var statelist: seq<State>

    /** `Builder::new(start)` */
    constructor (start: nat)
      ensures this.start == start && statelist == []
    {
      this.start := start;
      statelist := [];
    }

    /** `add_state`: appends `state` as it is. */
    method AddState(state: State)
      modifies this
      ensures statelist == old(statelist) + [state]
      ensures statelist[|old(statelist)|] == state
    {
      statelist := statelist + [state];
    }

    /** `with_transition`: appends a Transition with exactly the given sets and successor. */
    method WithTransition(inclusive: set<char>, exclusive: set<char>, out: Option<nat>)
      modifies this
      ensures statelist == old(statelist) + [Transition(inclusive, exclusive, out)]
    {
      statelist := statelist + [Transition(inclusive, exclusive, out)];
    }

    /** `with_split` */
    method WithSplit(out1: nat, out2: Option<nat>)
      modifies this
      ensures statelist == old(statelist) + [Split(out1, out2)]
    {
      statelist := statelist + [Split(out1, out2)];
    }

    /** `with_match` */
    method WithMatch()
      modifies this
      ensures statelist == old(statelist) + [Match]
    {
      statelist := statelist + [Match];
    }

    /** `with_nil` */
    method WithNil()
      modifies this
      ensures statelist == old(statelist) + [Nil]
    {
      statelist := statelist + [Nil];
    }
  }
}
