# rejects: a Thompson-NFA regex engine, modelled in Dafny

This project models the core of `rejects`, a small regular-expression engine
built on Thompson's construction. The core has five parts:

- **The state arena and fragment algebra** (`nfa.dfy`, module `Nfa`). An
  automaton is an append-only list of states (`StateList`). Successors are
  indices into that list. A state is a `Transition` (a character predicate
  given by an inclusive and an exclusive set), a `Split` (one or two silent
  edges), `Match` or `Nil`. Fragments are partial automata: a start index and
  the list of exits ("danglers") whose successor slot is still unresolved.
  `union`, `concatenation`, `kleene`, `question_mark`, `plus` and the leaf
  builders append states and patch danglers with `link`/`set_out`.
- **The LL(1) recursive-descent recogniser** (`parser.dfy`, module `Parser`).
  It walks the pattern with one character of lookahead and collects error
  positions. Each production is first a function over a cursor
  `(pos, index, errors)`. Here `pos` counts characters taken from the
  iterator and `index` counts `consume` calls. The imperative `Parser` class
  then mirrors the Rust methods, and each method is proved to leave the cursor
  its function describes.
- **The subset simulation** (`rejects.dfy`, module `Rejects`). `is_match`
  keeps a frontier of state indices. `epsilon_transition` follows Split edges
  and `character_transition` follows one Transition. The frontier functions
  (`Epsilon`, `CharStep`, `Step`, `Run`, `Accepts`) specify the methods.
  `Epsilon` is proved to be the least Split-closed set, and `Accepts` is
  proved equal to a separate path semantics (`Reach`, `Recognizes`): a string
  is accepted iff some path of Split and Transition edges from `start` spells
  it and ends at a Match state.
- **The character-class tables** (`character_sets.dfy`, module
  `CharacterSets`): word characters, digits, whitespace and a half-open byte
  range with an error case.
- **The builder** (`builder.dfy`, module `Builder`): a fixed start index and
  a state list that each call extends by exactly one given state.

`examples.dfy` builds the automaton for `a*` twice: once with `character`,
`kleene`, `add_state(Match)` and `link`, and once with the builder. It proves
that the automaton accepts exactly the strings made only of `a`, and proves
what `is_match` returns on `""`, `"aaa"` and `"b"`. `wrappers.dfy` holds `Option` and
`Result`.

Facts about the code that the model keeps:

- `error` records `index`, the number of `consume` calls made so far, not a
  character offset into the pattern. `error` then drops one character
  without counting it.
- A bad escape is reported at the position after the backslash, because
  `parse_term` has already consumed the backslash.
- Trailing input is reported at the current `index`, and two characters are
  dropped: the one `parse` takes with `next` and the one `error` drops.
- `parse_term` treats `.` as an ordinary literal, and it builds no fragment
  for escapes.
- The parser's `union`, `concatenation` and `unary_operator` combinators are
  stubs that return their first operand. So the parser builds no automaton,
  and the fragments it returns never affect the errors.
- `epsilon_transition` keeps no visited set, so it recurses without end on a
  cycle of Split edges that the frontier reaches from `start`. The model
  requires more than that, over the whole arena: a ghost `rank` that strictly
  decreases along every Split edge, whether or not the edge is reachable.

## Model

| member | source | states |
|---|---|---|
| Nfa.SetOut | src/nfa.rs:82-95 | fills `out` of a Transition or `out2` of a Split with `Some(newout)`, keeps the character sets and `out1`, and leaves Match and Nil unchanged |
| Nfa.SetOutAddsEdge | src/nfa.rs:82-95 | patching a dangling slot resolves it and adds exactly the new successor; Match and Nil are untouched; patching twice is the same as patching once |
| Nfa.TransitionOn | src/nfa.rs:97-115 | for each shape of the two sets (both empty, only inclusive, only exclusive, both) gives which characters lead to `out`; Split, Match and Nil give `None` |
| Nfa.NonCharactersComplement | src/nfa.rs:97-115 | over the same non-empty set, a leaf from `characters` and one from `non_characters` accept complementary characters |
| Nfa.MakeInclusiveExclusiveTransition | src/nfa.rs:55-64 | a Transition with both sets as given and `out` unresolved |
| Nfa.MakeInclusiveTransition | src/nfa.rs:66-72 | the inclusive/exclusive transition with the given set included and nothing excluded |
| Nfa.MakeExclusiveTransition | src/nfa.rs:74-80 | the inclusive/exclusive transition with nothing included and the given set excluded |
| Nfa.MakeTransition | src/nfa.rs:31-41 | building an unresolved transition and patching `out` only when one is given yields exactly `Transition(inclusive, exclusive, out)` |
| Nfa.LinkAll | src/nfa.rs:229-231 | linking every dangler in turn keeps the arena's length |
| Nfa.LinkAllAt | src/nfa.rs:229-231 | after linking a list of danglers, a listed index holds its state patched once and every other index holds its old state |
| Nfa.LinkAllKeepsShape | src/nfa.rs:258-260 | linking to a state inside a closed arena keeps it closed and leaves unlisted states alone |
| Nfa.StateList.constructor | src/nfa.rs:192-194 | a new arena is empty |
| Nfa.StateList.AddState | src/nfa.rs:321-324 | appends the state, returns the old length as its index, earlier states unchanged |
| Nfa.StateList.Link | src/nfa.rs:326-328 | `set_out` at `from`; every other index unchanged and the length kept |
| Nfa.StateList.Union | src/nfa.rs:196-213 | `None` first operand gives `None`; `None` second gives the first with the arena untouched; otherwise appends `Split(f1.start, Some(f2.start))`, which is the new start, and the exits are `f1.endstates ++ f2.endstates`; well-built fragments stay well built |
| Nfa.StateList.Concatenation | src/nfa.rs:215-237 | `None` cases as for union; otherwise appends nothing, links every exit of `f1` to `f2.start` and returns `{f1.start, f2.endstates}`; well-built disjoint fragments stay well built |
| Nfa.StateList.UnaryOperator | src/nfa.rs:239-254 | dispatches `*`, `?` and `+` to kleene, question_mark and plus with their exact arenas and fragments; `None` gives `None`; any other operator returns the fragment with the arena unchanged |
| Nfa.StateList.Kleene | src/nfa.rs:256-265 | appends `Split(f.start, None)`, links every exit of `f` to it, and returns `{split, [split]}`; well built stays well built |
| Nfa.StateList.QuestionMark | src/nfa.rs:267-272 | appends `Split(f.start, None)`, links nothing, and returns `{split, [split] ++ f.endstates}` |
| Nfa.StateList.Plus | src/nfa.rs:274-283 | appends `Split(f.start, None)`, links every exit of `f` to it, and returns `{f.start, [split]}` |
| Nfa.StateList.Character | src/nfa.rs:285-289 | appends one Transition admitting exactly `c`, with `out` unresolved, and returns `{s, [s]}` |
| Nfa.StateList.InclusiveExclusiveCharacters | src/nfa.rs:291-303 | appends one Transition with both sets as given, with `out` unresolved, and returns `{s, [s]}` |
| Nfa.StateList.Characters | src/nfa.rs:305-311 | appends one inclusive Transition with `out` unresolved and returns `{s, [s]}` |
| Nfa.StateList.NonCharacters | src/nfa.rs:313-319 | appends one exclusive Transition with `out` unresolved and returns `{s, [s]}` |
| Parser.ConsumeAt | src/parser.rs:223-226 | `consume` takes one character, returns it and adds exactly one to `index` |
| Parser.ErrorAt | src/parser.rs:229-233 | `error` records the current `index`, drops one character if there is one without changing `index`, and returns `None` |
| Parser.StubUnion | src/parser.rs:197-199 | the `union` combinator the parser calls returns its first operand unchanged, whatever the second |
| Parser.StubConcatenation | src/parser.rs:201-203 | the `concatenation` combinator returns its first operand unchanged, whatever the second |
| Parser.StubUnaryOperator | src/parser.rs:205-207 | the `unary_operator` combinator returns its operand unchanged, whatever the operator |
| Parser.Union | src/parser.rs:83-90 | `parse_union` keeps the cursor invariant (error positions in order and at most `index`, `index` ≤ characters taken ≤ pattern length), never moves back, and takes at least one character when one is left |
| Parser.UnionPrime | src/parser.rs:92-102 | `parse_union_prime` keeps the cursor invariant and never moves back |
| Parser.Concat | src/parser.rs:104-111 | `parse_concat` keeps the cursor invariant and takes at least one character when one is left |
| Parser.ConcatPrime | src/parser.rs:113-122 | `parse_concat_prime` keeps the cursor invariant and never moves back |
| Parser.Unary | src/parser.rs:124-131 | `parse_unary` keeps the cursor invariant and takes at least one character when one is left |
| Parser.UnaryOp | src/parser.rs:133-142 | `parse_unaryop` keeps the cursor invariant |
| Parser.Paren | src/parser.rs:144-159 | `parse_paren` keeps the cursor invariant and takes at least one character when one is left |
| Parser.Term | src/parser.rs:161-195 | `parse_term` keeps the cursor invariant and takes at least one character when one is left |
| Parser.Errors | src/parser.rs:65-73 | the error positions `parse` returns are in order and none exceeds the pattern's length |
| Parser.EmptyPatternRejected | src/parser.rs:83-90 | the empty pattern gives exactly one error, at 0 |
| Parser.StructuralStartRejected | src/parser.rs:83-195 | a structural character or the end of input where a union, concatenation, unary, paren or term must begin records exactly one error, at `index` |
| Parser.TermRejectsOpenParen | src/parser.rs:161-163 | a term cannot begin with `(` |
| Parser.EscapeAccepted | src/parser.rs:164-184 | a backslash followed by `w W d D s S * + \ ( ) .` is consumed with the escape, two `consume` calls and no error |
| Parser.EscapeRejected | src/parser.rs:164-180 | a backslash followed by any other character, or by nothing, records one error at the position after the backslash |
| Parser.UnclosedGroupRejected | src/parser.rs:144-155 | a `(` whose inner union is not followed by `)` records an error |
| Parser.UnaryOpTakesAtMostOne | src/parser.rs:133-142 | `parse_unaryop` takes at most one character, and takes one exactly when a postfix operator is next |
| Parser.DoublePostfixRejected | src/parser.rs:113-142 | two postfix operators in a row after a paren record an error |
| Parser.TrailingInputRejected | src/parser.rs:65-73 | input left after the top-level union adds exactly one error |
| Parser.AcceptedIsConsumed | src/parser.rs:223-233 | a pattern with no errors is read to its end by `consume` calls alone |
| Parser.PlainUnary | src/parser.rs:124-142 | a literal with no postfix operator after it is one unary, taken by one `consume` |
| Parser.LiteralRun | src/parser.rs:104-122 | a run of literals ending at the end, a `)` or a bar is one concatenation, read without error |
| Parser.ValidPatternsAccepted | src/parser.rs:241-262 | every one of the twelve patterns in the repository's list of valid regexes (`abcd`, `a` bar `b` bar `c` bar `d`, `(ab)` bar `(cd)*`, `(a` bar `b+c?` bar `d)`, `(abcd)`, `a` bar `a`, `(bc)`, `(abc)(abc)(abc)` bar `(abc)(abc)`, `a` bar `b+(c?` bar `d)`, `(a` bar `b)`, `(\w)`, `\\`) is free of `[` and parses with no error |
| Parser.AcceptsLiterals | src/parser.rs:241-262 | `abcd` gives no errors |
| Parser.AcceptsAlternatives | src/parser.rs:241-262 | `a` bar `a` gives no errors |
| Parser.AcceptsGroup | src/parser.rs:241-262 | `(abcd)` gives no errors |
| Parser.AcceptsGroupedEscape | src/parser.rs:241-262 | `(\w)` gives no errors |
| Parser.AcceptsEscapedBackslash | src/parser.rs:241-262 | `\\` gives no errors |
| Parser.AcceptsFourAlternatives | src/parser.rs:241-262 | `a` bar `b` bar `c` bar `d` gives no errors |
| Parser.AcceptsGroupOrStarredGroup | src/parser.rs:241-262 | `(ab)` bar `(cd)*` gives no errors: a group followed by `*` is one unary |
| Parser.AcceptsGroupedPostfixAlternatives | src/parser.rs:241-262 | `(a` bar `b+c?` bar `d)` gives no errors: `+` and `?` after literals are accepted |
| Parser.AcceptsShortGroup | src/parser.rs:241-262 | `(bc)` gives no errors |
| Parser.AcceptsRepeatedGroups | src/parser.rs:241-262 | `(abc)(abc)(abc)` bar `(abc)(abc)` gives no errors |
| Parser.AcceptsPlusBeforeGroup | src/parser.rs:241-262 | `a` bar `b+(c?` bar `d)` gives no errors |
| Parser.AcceptsGroupedAlternatives | src/parser.rs:241-262 | `(a` bar `b)` gives no errors |
| Parser.InvalidPatternsRejected | src/parser.rs:264-290 | every one of the twelve patterns in the repository's list of invalid regexes (`(abcd`, `a` bar bar `c` bar `d`, a lone bar, `()`, `)aaab(`, `a` bar `b+c?` bar `d)`, `a)`, `(abcd)(`, `(a` bar `)`, `(\a)`, `\`, `\\\`) is free of `[` and parses with at least one error |
| Parser.RejectsUnclosedGroup | src/parser.rs:264-290 | `(abcd` gives an error |
| Parser.RejectsEmptyAlternative | src/parser.rs:264-290 | `a` bar bar `c` bar `d` gives an error |
| Parser.RejectsUnopenedStart | src/parser.rs:264-290 | `)aaab(` gives an error |
| Parser.RejectsEmptyGroup | src/parser.rs:264-290 | `()` gives an error |
| Parser.RejectsUnopenedGroup | src/parser.rs:264-290 | `a)` gives an error |
| Parser.RejectsEmptyLastAlternative | src/parser.rs:264-290 | `(a` bar `)` gives an error |
| Parser.RejectsGroupedBadEscape | src/parser.rs:264-290 | `(\a)` gives an error |
| Parser.RejectsLoneBackslash | src/parser.rs:264-290 | `\` gives an error |
| Parser.RejectsLoneBar | src/parser.rs:264-290 | a lone bar gives an error |
| Parser.RejectsUnopenedAfterPostfix | src/parser.rs:264-290 | `a` bar `b+c?` bar `d)` gives an error: the union ends at the `)` and the trailing input is reported |
| Parser.RejectsTrailingOpenGroup | src/parser.rs:264-290 | `(abcd)(` gives an error: the last `(` opens a group with nothing in it |
| Parser.RejectsTrailingBackslash | src/parser.rs:264-290 | `\\\` gives an error: the first two backslashes are an escape and the third has nothing after it |
| Parser.RejectsDoublePostfix | src/parser.rs:113-142 | `a**` gives an error |
| Parser.Parser.constructor | src/parser.rs:75-81 | a new parser starts at the pattern's beginning with `index` 0 and no errors |
| Parser.Parser.Parse | src/parser.rs:65-73 | `parse` returns exactly `Errors(s)` |
| Parser.Parser.Next | src/parser.rs:69-71 | the iterator's `next` returns the next character, if any, and takes it without counting it |
| Parser.Parser.Consume | src/parser.rs:223-226 | `consume` leaves the parser at `ConsumeAt` |
| Parser.Parser.Error | src/parser.rs:229-233 | `error` leaves the parser at `ErrorAt` |
| Parser.Parser.ParseUnion | src/parser.rs:83-90 | leaves the parser at `Union` and returns its fragment |
| Parser.Parser.ParseUnionPrime | src/parser.rs:92-102 | leaves the parser at `UnionPrime` and returns its fragment |
| Parser.Parser.ParseConcat | src/parser.rs:104-111 | leaves the parser at `Concat` and returns its fragment |
| Parser.Parser.ParseConcatPrime | src/parser.rs:113-122 | leaves the parser at `ConcatPrime` and returns its fragment |
| Parser.Parser.ParseUnary | src/parser.rs:124-131 | leaves the parser at `Unary` and returns its fragment |
| Parser.Parser.ParseUnaryOp | src/parser.rs:133-142 | leaves the parser at `UnaryOp` and returns the operator |
| Parser.Parser.ParseParen | src/parser.rs:144-159 | leaves the parser at `Paren` and returns its fragment |
| Parser.Parser.ParseTerm | src/parser.rs:161-195 | leaves the parser at `Term` and returns its fragment |
| Rejects.EpsilonSuccessors | src/rejects.rs:53-65 | the successors followed without reading are among the stored successors |
| Rejects.Epsilon | src/rejects.rs:53-65 | what `epsilon_transition` inserts lies inside the arena |
| Rejects.CharStep | src/rejects.rs:46-51 | what `character_transition` inserts lies inside the arena |
| Rejects.Step | src/rejects.rs:26-30 | the next frontier lies inside the arena |
| Rejects.Initial | src/rejects.rs:22-24 | the initial frontier contains `start` and lies inside the arena |
| Rejects.Run | src/rejects.rs:26-36 | every frontier lies inside the arena |
| Rejects.Accepts | src/rejects.rs:21-44 | `is_match` accepts when the frontier left after the whole string holds a Match state; an accepted string therefore leaves a non-empty frontier |
| Rejects.EpsilonOfNonSplit | src/rejects.rs:53-65 | from a Transition, Match or Nil state `epsilon_transition` inserts nothing |
| Rejects.EpsilonHasSuccessors | src/rejects.rs:55-61 | from a Split it inserts `out1` and, when resolved, `out2` |
| Rejects.EpsilonIsClosed | src/rejects.rs:53-65 | what it inserts is closed under Split edges |
| Rejects.EpsilonIsLeast | src/rejects.rs:53-65 | what it inserts is contained in every Split-closed set holding the state's Split successors, so it is the least such set |
| Rejects.CharStepFollowsTransition | src/rejects.rs:46-51 | `character_transition` inserts `out` and its Split closure exactly when `transition(c)` is `Some(out)`, and nothing otherwise |
| Rejects.StepAdd | src/rejects.rs:26-30 | the next frontier is the union of `character_transition` over the current states |
| Rejects.RunFromEmpty | src/rejects.rs:31-32 | an empty frontier stays empty |
| Rejects.RunSplit | src/rejects.rs:26-36 | reading `s` is reading a prefix and then the rest |
| Rejects.EmptyPrefixRejects | src/rejects.rs:31-32 | once a prefix empties the frontier, the whole string is rejected whatever follows |
| Rejects.AcceptsEmpty | src/rejects.rs:21-44 | `is_match("")` holds iff `start` or its Split closure holds a Match state |
| Rejects.EpsilonStored | src/rejects.rs:53-65 | what `epsilon_transition` inserts is a successor stored in some state |
| Rejects.FrontierStored | src/rejects.rs:26-36 | if every member of a frontier is `start` or a stored successor, so is every member of every later frontier |
| Rejects.RunStored | src/rejects.rs:21-36 | every frontier `is_match` builds holds only `start` and stored successor indices |
| Rejects.EpsilonReached | src/rejects.rs:53-65 | what `epsilon_transition(_, i)` inserts is reachable from `i` along Split edges |
| Rejects.RunReached | src/rejects.rs:26-36 | every member of the frontier after `s` is reached reading `s` from a member of the starting frontier |
| Rejects.StepIsClosed | src/rejects.rs:46-65 | every frontier after a character is closed under Split edges |
| Rejects.InitialIsClosed | src/rejects.rs:22-24 | the initial frontier is closed under Split edges |
| Rejects.ReachedInRun | src/rejects.rs:26-36 | from a Split-closed frontier, the end of every path reading `s` is in the frontier after `s` |
| Rejects.AcceptsIffRecognizes | src/rejects.rs:21-44 | the final frontier holds a Match state iff some path from `start` spells `s` and ends at a Match state |
| Rejects.Rejects.constructor | src/rejects.rs:6-9 | the matcher holds the given start and arena |
| Rejects.Rejects.IsMatch | src/rejects.rs:21-44 | `is_match` returns `Accepts`, which is whether some path from `start` spells `s` and ends at a Match state |
| Rejects.Rejects.CharacterTransition | src/rejects.rs:46-51 | returns `newstates` plus exactly what one step from `state` on `symbol` reaches |
| Rejects.Rejects.EpsilonTransition | src/rejects.rs:53-65 | returns `newstates` plus exactly the Split closure of `state` |
| CharacterSets.WordChars | src/character_sets.rs:3-16 | exactly `a-z`, `A-Z`, `0-9` and `_`, 63 characters |
| CharacterSets.Digits | src/character_sets.rs:18-24 | exactly `0-9`, 10 characters |
| CharacterSets.Whitespace | src/character_sets.rs:26-31 | exactly space and tab |
| CharacterSets.Range | src/character_sets.rs:33-42 | `Err((low, high))` iff `high < low`; otherwise the code points from `low` up to but excluding `high`, `high - low` of them (so `range(x, x)` is empty) |
| CharacterSets.DigitsAreWordChars | src/character_sets.rs:3-24 | every digit is a word character |
| CharacterSets.WhitespaceIsNotWord | src/character_sets.rs:3-31 | no whitespace character is a word character |
| Builder.Builder.constructor | src/builder.rs:11-16 | holds the given start and an empty state list |
| Builder.Builder.AddState | src/builder.rs:22-25 | appends exactly the given state; earlier states and `start` unchanged |
| Builder.Builder.WithTransition | src/builder.rs:27-39 | appends a Transition with exactly the given sets and successor |
| Builder.Builder.WithSplit | src/builder.rs:41-44 | appends `Split(out1, out2)` |
| Builder.Builder.WithMatch | src/builder.rs:46-49 | appends `Match` |
| Builder.Builder.WithNil | src/builder.rs:51-54 | appends `Nil` |
| Examples.BuildAStar | src/nfa.rs:256-328 | `character('a')`, `kleene`, `add_state(Match)` and `link` build the `a*` arena, which is well formed |
| Examples.BuildAStarWithBuilder | src/builder.rs:27-54 | `with_transition`, `with_split` and `with_match` build the same arena |
| Examples.AStarLanguage | src/rejects.rs:21-44 | the `a*` automaton accepts a string iff every character is `a` |
| Examples.MatchAStar | src/rejects.rs:21-44 | on that arena, `is_match` accepts `""` and `"aaa"` and rejects `"b"` |

## Left out

- `ToTokens for State` (src/nfa.rs:118-184) generates Rust tokens through a foreign library and takes no part in matching.
- `make_split`, `make_match` and `make_nil` (src/nfa.rs:43-53) are the datatype constructors `Split`, `Match` and `Nil` themselves.
- `StateList::new` is modelled as the class constructor; `Builder::build` and `Rejects::new` call functions that do not exist in this source, so the matcher is constructed directly from `(start, statelist)`.
- src/main.rs and src/lib.rs are not part of this model: one is a demo harness calling functions not defined in this source, the other holds only declarations and tests of a different `parse`.
- The parser's dead `Rc`-based `State`, `Fragment` and `character`/`characters` (src/parser.rs:43-55, 209-221) are reduced to the opaque `Leaf` value that `parse_term` returns; fragments never influence the errors.
- Parser.Supported: the parser model admits only patterns without `[`. When `parse_term` is reached at a `[`, it returns without consuming it, and `parse_concat_prime` then calls `parse_concat` on the same `[` again without end. Patterns in which a `[` is never reached by `parse_term` (for example `\[`, `)[` or `a)[`) do terminate in the code, but the model conservatively excludes every pattern containing `[`.
- Nfa.StateList.Link, Nfa.StateList.Concatenation, Nfa.StateList.Kleene, Nfa.StateList.Plus and Nfa.StateList.UnaryOperator: out-of-range state indices, on which `link` panics (`self.states[from]`, src/nfa.rs:327), are excluded by preconditions rather than modelled as panics.
- Rejects.WellFormed: the matcher panics only on an out-of-range index that it actually reaches (`self.statelist[state]`, src/rejects.rs:47, 54). The model instead requires, through Nfa.Closed, that every stored successor of every state lies in the arena, including states that `start` never reaches. This whole-arena restriction is stronger than the code needs. It excludes some arenas on which `is_match` returns normally, for example one holding an unreachable `Split(k, None)` whose `k` is past the end.
- Rejects.Ranked: `epsilon_transition` recurses without end only on a cycle of Split edges that the frontier reaches (src/rejects.rs:53-65). The model requires a rank that decreases along every Split edge of the whole arena, which is stronger than the code needs. It excludes some arenas on which `is_match` returns normally, for example one with a Split cycle that `start` never reaches. A reachable Split-only cycle, as `kleene` applied to a `kleene` fragment builds, is one on which the code does not terminate.
- Parser.Parser: the `u32` counter `index` and the `u32` error positions are unbounded here; wrap-around after 2^32 `consume` calls is not modelled.
- HashSet hashing and iteration order are not modelled: frontiers and character sets are mathematical sets. The matcher's loops pick states in an arbitrary order, and every order is proved to give the same result.
- `find_end` (longest-prefix matching) does not exist in this source, so it is not modelled.
- Builder.Builder: the `&Builder` that each `with_*` method returns for chaining is not modelled; the methods update the builder in place.
- CharacterSets.Range: the `u8 as char` cast is modelled as taking the code point itself.
