/**
 * The LL(1) recursive-descent recogniser of src/parser.rs. The grammar, with
 * left recursion removed, is
 *
 *   UNION  -> CONCAT UNION'          UNION'  -> '|' UNION | (empty)
 *   CONCAT -> UNARY CONCAT'          CONCAT' -> CONCAT | (empty)
 *   UNARY  -> PAREN UNARYOP          UNARYOP -> '*' | '?' | '+' | (empty)
 *   PAREN  -> TERM | '(' UNION ')'   TERM    -> literal | '\' escape
 *
 * The parser records the number of `consume` calls made so far as the
 * position of each error, drops one character on every error, and goes on.
 * Its combinators for union, concatenation and postfix operators are stubs
 * that return their first operand, so fragments never influence the errors.
 *
 * The productions are first given as functions over a `Cursor`; the class
 * `Parser` below is the imperative parser, each method proved to leave the
 * cursor its function describes.
 */
module Parser {
  import opened Wrappers

  /**
   * The parser's state: `pos` characters taken from the pattern, `index`
   * calls of `consume` made, and the error positions recorded so far.
   */
  datatype Cursor = Cursor(pos: nat, index: nat, errors: seq<nat>)

  /** A production's outcome: the new cursor and what it returned. */
  datatype Parsed<T> = Parsed(at: Cursor, value: Option<T>)

  /** The fragment `characters(vec![c])` builds: a leaf over the given characters. */
  datatype Leaf = Leaf(chars: seq<char>)

  const Start := Cursor(0, 0, [])

  /** Characters that can never begin a union, concatenation, unary or paren. */
  predicate IsStructural(c: char)
  {
    c in {')', '*', '?', '+', '|'}
  }

  predicate IsPostfix(c: char)
  {
    c in {'*', '?', '+'}
  }

  /** Characters accepted after a backslash. */
  predicate IsEscapable(c: char)
  {
    c in {'w', 'W', 'd', 'D', 's', 'S', '*', '+', '\\', '(', ')', '.'}
  }

  /**
   * Patterns the recogniser terminates on: a `[` reached by `parse_term` is
   * neither consumed nor reported, and `parse_concat_prime` then re-enters
   * `parse_concat` on it forever.
   */
  predicate Supported(s: string)
  {
    '[' !in s
  }

  function Peek(s: string, at: Cursor): Option<char>
  {
    if at.pos < |s| then Some(s[at.pos]) else None
  }

  predicate Sorted(errors: seq<nat>)
  {
    forall i, j | 0 <= i < j < |errors| :: errors[i] <= errors[j]
  }

  /**
   * What every cursor reached from `Start` satisfies: no more `consume` calls
   * than characters taken, no more characters taken than the pattern has,
   * and the error positions in order and never beyond `index`.
   */
  predicate Inv(s: string, at: Cursor)
  {
    && at.index <= at.pos <= |s|
    && Sorted(at.errors)
    && forall i | 0 <= i < |at.errors| :: at.errors[i] <= at.index
  }

  /**
   * How a production moves the cursor: nothing goes back, errors are only
   * appended, and each character taken without a `consume` is paid for by
   * an error.
   */
  predicate Advances(a: Cursor, b: Cursor)
  {
    && a.pos <= b.pos
    && a.index <= b.index
    && |a.errors| <= |b.errors|
    && b.errors[..|a.errors|] == a.errors
    && (b.pos - b.index) - (a.pos - a.index) <= |b.errors| - |a.errors|
  }

  /** `consume`: one more call counted, one character taken and returned. */
  function ConsumeAt(s: string, at: Cursor): (r: Parsed<char>)
    requires Inv(s, at) && at.pos < |s|
    ensures Inv(s, r.at) && Advances(at, r.at)
    ensures r.at == Cursor(at.pos + 1, at.index + 1, at.errors) && r.value == Some(s[at.pos])
  {
    Parsed(Cursor(at.pos + 1, at.index + 1, at.errors), Some(s[at.pos]))
  }

  /**
   * `error`: the current `index` is recorded, one character (if any) is
   * dropped without counting it, and no fragment is returned.
   */
  function ErrorAt(s: string, at: Cursor): (r: Parsed<Leaf>)
    requires Inv(s, at)
    ensures Inv(s, r.at) && Advances(at, r.at)
    ensures r.at.errors == at.errors + [at.index] && r.at.index == at.index && r.value == None
    ensures r.at.pos == if at.pos < |s| then at.pos + 1 else at.pos
  {
    Parsed(Cursor(if at.pos < |s| then at.pos + 1 else at.pos, at.index, at.errors + [at.index]), None)
  }

  /** The stub `union`: the first operand, whatever the second. */
  function StubUnion(f1: Option<Leaf>, f2: Option<Leaf>): (r: Option<Leaf>)
    ensures r == f1
  {
    f1
  }

  /** The stub `concatenation`: the first operand, whatever the second. */
  function StubConcatenation(f1: Option<Leaf>, f2: Option<Leaf>): (r: Option<Leaf>)
    ensures r == f1
  {
    f1
  }

  /** The stub `unary_operator`: the operand, whatever the operator. */
  function StubUnaryOperator(f1: Option<Leaf>, op: Option<char>): (r: Option<Leaf>)
    ensures r == f1
  {
    f1
  }

  /** `parse_union` */
  function Union(s: string, at: Cursor): (r: Parsed<Leaf>)
    requires Supported(s) && Inv(s, at)
    ensures Inv(s, r.at) && Advances(at, r.at)
    ensures Peek(s, at).Some? ==> r.at.pos > at.pos
    decreases |s| - at.pos, 4
  {
    match Peek(s, at)
    case None => ErrorAt(s, at)
    case Some(c) =>
      if IsStructural(c) then ErrorAt(s, at)
      else
        var f1 := Concat(s, at);
        var f2 := UnionPrime(s, f1.at);
        Parsed(f2.at, StubUnion(f1.value, f2.value))
  }

  /** `parse_union_prime` */
  function UnionPrime(s: string, at: Cursor): (r: Parsed<Leaf>)
    requires Supported(s) && Inv(s, at)
    ensures Inv(s, r.at) && Advances(at, r.at)
    decreases |s| - at.pos, 4
  {
    match Peek(s, at)
    case None => Parsed(at, None)
    case Some(c) =>
      if c == ')' then Parsed(at, None)
      else if c == '|' then Union(s, ConsumeAt(s, at).at)
      else ErrorAt(s, at)
  }

  /** `parse_concat` */
  function Concat(s: string, at: Cursor): (r: Parsed<Leaf>)
    requires Supported(s) && Inv(s, at)
    ensures Inv(s, r.at) && Advances(at, r.at)
    ensures Peek(s, at).Some? ==> r.at.pos > at.pos
    decreases |s| - at.pos, 3
  {
    match Peek(s, at)
    case None => ErrorAt(s, at)
    case Some(c) =>
      if IsStructural(c) then ErrorAt(s, at)
      else
        var f1 := Unary(s, at);
        var f2 := ConcatPrime(s, f1.at);
        Parsed(f2.at, StubConcatenation(f1.value, f2.value))
  }

  /** `parse_concat_prime` */
  function ConcatPrime(s: string, at: Cursor): (r: Parsed<Leaf>)
    requires Supported(s) && Inv(s, at)
    ensures Inv(s, r.at) && Advances(at, r.at)
    decreases |s| - at.pos, 4
  {
    match Peek(s, at)
    case None => Parsed(at, None)
    case Some(c) =>
      if c == ')' || c == '|' then Parsed(at, None)
      else if IsPostfix(c) then ErrorAt(s, at)
      else Concat(s, at)
  }

  /** `parse_unary` */
  function Unary(s: string, at: Cursor): (r: Parsed<Leaf>)
    requires Supported(s) && Inv(s, at)
    ensures Inv(s, r.at) && Advances(at, r.at)
    ensures Peek(s, at).Some? ==> r.at.pos > at.pos
    decreases |s| - at.pos, 2
  {
    match Peek(s, at)
    case None => ErrorAt(s, at)
    case Some(c) =>
      if IsStructural(c) then ErrorAt(s, at)
      else
        var f := Paren(s, at);
        var op := UnaryOp(s, f.at);
        Parsed(op.at, StubUnaryOperator(f.value, op.value))
  }

  /** `parse_unaryop`: takes one postfix operator if one is next, nothing else. */
  function UnaryOp(s: string, at: Cursor): (r: Parsed<char>)
    requires Inv(s, at)
    ensures Inv(s, r.at) && Advances(at, r.at)
  {
    match Peek(s, at)
    case Some(c) => if IsPostfix(c) then ConsumeAt(s, at) else Parsed(at, None)
    case None => Parsed(at, None)
  }

  /** `parse_paren` */
  function Paren(s: string, at: Cursor): (r: Parsed<Leaf>)
    requires Supported(s) && Inv(s, at)
    ensures Inv(s, r.at) && Advances(at, r.at)
    ensures Peek(s, at).Some? ==> r.at.pos > at.pos
    decreases |s| - at.pos, 1
  {
    match Peek(s, at)
    case None => ErrorAt(s, at)
    case Some(c) =>
      if c == '(' then
        var fragment := Union(s, ConsumeAt(s, at).at);
        if Peek(s, fragment.at) == Some(')') then Parsed(ConsumeAt(s, fragment.at).at, fragment.value)
        else ErrorAt(s, fragment.at)
      else if IsStructural(c) then ErrorAt(s, at)
      else Term(s, at)
  }

  /**
   * `parse_term`: a literal is consumed and becomes a leaf; a backslash and
   * an accepted escape are both consumed (escapes build no fragment yet).
   */
  function Term(s: string, at: Cursor): (r: Parsed<Leaf>)
    requires Supported(s) && Inv(s, at)
    ensures Inv(s, r.at) && Advances(at, r.at)
    ensures Peek(s, at).Some? ==> r.at.pos > at.pos
  {
    match Peek(s, at)
    case None => ErrorAt(s, at)
    case Some(c) =>
      if c == '(' || IsStructural(c) then ErrorAt(s, at)
      else if c == '\\' then
        var next := ConsumeAt(s, at).at;
        match Peek(s, next)
        case Some(e) =>
          if IsEscapable(e) then Parsed(ConsumeAt(s, next).at, None) else ErrorAt(s, next)
        case None => ErrorAt(s, next)
      else Parsed(ConsumeAt(s, at).at, Some(Leaf([c])))
  }

  /**
   * `parse`: the error positions of a whole pattern. A character left after
   * the top-level union is taken and, since `error` drops one more, reported
   * at the current `index`. The positions come out in order and none lies
   * beyond the pattern's end.
   */
  function Errors(s: string): (r: seq<nat>)
    requires Supported(s)
    ensures Sorted(r)
    ensures forall i | 0 <= i < |r| :: r[i] <= |s|
  {
    var u := Union(s, Start);
    if u.at.pos < |s| then ErrorAt(s, Cursor(u.at.pos + 1, u.at.index, u.at.errors)).at.errors
    else u.at.errors
  }

  /** The empty pattern is rejected, with one error at position 0. */
  lemma EmptyPatternRejected()
    ensures Errors("") == [0]
  {
  }

  /**
   * Where a union, concatenation, unary or paren must begin, a structural
   * character or the end of the pattern records an error at `index`.
   */
  lemma StructuralStartRejected(s: string, at: Cursor)
    requires Supported(s) && Inv(s, at)
    requires Peek(s, at).None? || IsStructural(Peek(s, at).value)
    ensures Union(s, at).at.errors == at.errors + [at.index]
    ensures Concat(s, at).at.errors == at.errors + [at.index]
    ensures Unary(s, at).at.errors == at.errors + [at.index]
    ensures Paren(s, at).at.errors == at.errors + [at.index]
    ensures Term(s, at).at.errors == at.errors + [at.index]
  {
  }

  /** A term cannot begin with `(` either. */
  lemma TermRejectsOpenParen(s: string, at: Cursor)
    requires Supported(s) && Inv(s, at)
    requires Peek(s, at) == Some('(')
    ensures Term(s, at).at.errors == at.errors + [at.index]
  {
  }

  /** A backslash and an accepted escape are both consumed, with no error. */
  lemma EscapeAccepted(s: string, at: Cursor)
    requires Supported(s) && Inv(s, at)
    requires at.pos + 1 < |s| && s[at.pos] == '\\' && IsEscapable(s[at.pos + 1])
    ensures Term(s, at) == Parsed(Cursor(at.pos + 2, at.index + 2, at.errors), None)
  {
  }

  /**
   * A backslash followed by anything else, or by nothing, records an error
   * at the position after the backslash.
   */
  lemma EscapeRejected(s: string, at: Cursor)
    requires Supported(s) && Inv(s, at)
    requires at.pos < |s| && s[at.pos] == '\\'
    requires at.pos + 1 == |s| || !IsEscapable(s[at.pos + 1])
    ensures Term(s, at).at.errors == at.errors + [at.index + 1]
  {
  }

  /** A `(` whose inner union is not followed by `)` records an error. */
  lemma UnclosedGroupRejected(s: string, at: Cursor)
    requires Supported(s) && Inv(s, at)
    requires Peek(s, at) == Some('(')
    requires Peek(s, Union(s, ConsumeAt(s, at).at).at) != Some(')')
    ensures |Paren(s, at).at.errors| > |at.errors|
  {
    var inner := Union(s, ConsumeAt(s, at).at);
    assert Paren(s, at) == ErrorAt(s, inner.at);
  }

  /** `parse_unaryop` takes at most one character, and only a postfix operator. */
  lemma UnaryOpTakesAtMostOne(s: string, at: Cursor)
    requires Inv(s, at)
    ensures UnaryOp(s, at).at.pos <= at.pos + 1
    ensures UnaryOp(s, at).at.pos == at.pos + 1 <==> at.pos < |s| && IsPostfix(s[at.pos])
  {
  }

  /**
   * Two postfix operators in a row after a paren or term: the first is the
   * unary operator, and the concatenation that follows rejects the second.
   */
  lemma DoublePostfixRejected(s: string, at: Cursor)
    requires Supported(s) && Inv(s, at)
    requires Peek(s, at).Some? && !IsStructural(Peek(s, at).value)
    requires var p := Paren(s, at).at; p.pos + 1 < |s| && IsPostfix(s[p.pos]) && IsPostfix(s[p.pos + 1])
    ensures |Concat(s, at).at.errors| > |at.errors|
  {
    var p := Paren(s, at);
    var u := Unary(s, at);
    assert u.at == UnaryOp(s, p.at).at;
    assert u.at.pos == p.at.pos + 1;
    assert ConcatPrime(s, u.at).at == ErrorAt(s, u.at).at;
  }

  /** Input left after the top-level union adds a trailing error. */
  lemma TrailingInputRejected(s: string)
    requires Supported(s)
    requires Union(s, Start).at.pos < |s|
    ensures |Errors(s)| == |Union(s, Start).at.errors| + 1
  {
  }

  /**
   * A pattern with no errors is read to its end by `consume` calls alone, so
   * `index` and the offset into the pattern agree.
   */
  lemma AcceptedIsConsumed(s: string)
    requires Supported(s)
    requires Errors(s) == []
    ensures Union(s, Start).at.pos == |s|
    ensures Union(s, Start).at.index == |s|
  {
  }

  /** A cursor at `p` with every character so far taken by `consume` and no error. */
  function Clean(p: nat): Cursor
  {
    Cursor(p, p, [])
  }

  /** Characters that `parse_term` takes as a literal. */
  predicate IsPlain(c: char)
  {
    !IsStructural(c) && c != '(' && c != '\\'
  }

  /** UNION -> CONCAT UNION' when the next character may begin a union. */
  lemma UnionSeq(s: string, at: Cursor)
    requires Supported(s) && Inv(s, at) && at.pos < |s| && !IsStructural(s[at.pos])
    ensures Union(s, at).at == UnionPrime(s, Concat(s, at).at).at
  {
  }

  /** UNION' -> '|' UNION */
  lemma UnionPrimeBar(s: string, at: Cursor)
    requires Supported(s) && Inv(s, at) && at.pos < |s| && s[at.pos] == '|'
    ensures UnionPrime(s, at).at == Union(s, ConsumeAt(s, at).at).at
  {
  }

  /** CONCAT -> UNARY CONCAT' when the next character may begin a concatenation. */
  lemma ConcatSeq(s: string, at: Cursor)
    requires Supported(s) && Inv(s, at) && at.pos < |s| && !IsStructural(s[at.pos])
    ensures Concat(s, at).at == ConcatPrime(s, Unary(s, at).at).at
  {
  }

  /** UNARY -> PAREN UNARYOP when the next character may begin a unary. */
  lemma UnarySeq(s: string, at: Cursor)
    requires Supported(s) && Inv(s, at) && at.pos < |s| && !IsStructural(s[at.pos])
    ensures Unary(s, at).at == UnaryOp(s, Paren(s, at).at).at
  {
  }

  /** PAREN -> '(' UNION ')', with an error where the `)` is missing. */
  lemma ParenGroup(s: string, at: Cursor)
    requires Supported(s) && Inv(s, at) && at.pos < |s| && s[at.pos] == '('
    ensures var inner := Union(s, ConsumeAt(s, at).at).at;
      Paren(s, at).at == if Peek(s, inner) == Some(')') then ConsumeAt(s, inner).at else ErrorAt(s, inner).at
  {
  }

  /** PAREN -> TERM when the next character is not `(`. */
  lemma ParenTerm(s: string, at: Cursor)
    requires Supported(s) && Inv(s, at) && at.pos < |s| && s[at.pos] != '(' && !IsStructural(s[at.pos])
    ensures Paren(s, at) == Term(s, at)
  {
  }

  /** A literal followed by no postfix operator is one unary, taken by one `consume`. */
  lemma PlainUnary(s: string, at: Cursor)
    requires Supported(s) && Inv(s, at) && at.pos < |s| && IsPlain(s[at.pos])
    requires at.pos + 1 == |s| || !IsPostfix(s[at.pos + 1])
    ensures Unary(s, at).at == Cursor(at.pos + 1, at.index + 1, at.errors)
  {
    ParenTerm(s, at);
  }

  /**
   * A run of literals ending at the pattern's end, a `)` or a `|` is one
   * concatenation, read without error by one `consume` per character.
   */
  lemma {:induction false} LiteralRun(s: string, at: Cursor, q: nat)
    requires Supported(s) && Inv(s, at) && at.pos < q <= |s|
    requires forall k | at.pos <= k < q :: IsPlain(s[k])
    requires q == |s| || s[q] == ')' || s[q] == '|'
    ensures Concat(s, at).at == Cursor(q, at.index + (q - at.pos), at.errors)
    decreases q - at.pos
  {
    var next := Cursor(at.pos + 1, at.index + 1, at.errors);
    PlainUnary(s, at);
    if at.pos + 1 < q {
      LiteralRun(s, next, q);
      assert ConcatPrime(s, next) == Concat(s, next);
    } else {
      assert ConcatPrime(s, next).at == next;
    }
  }

  /*
   * The lemmas below put a derivation together from the cursors its parts
   * end at, for patterns read without error (`Clean` cursors throughout).
   */

  /** A literal is a paren read by one `consume`. */
  lemma PlainParen(s: string, p: nat)
    requires Supported(s) && p < |s| && IsPlain(s[p])
    ensures Paren(s, Clean(p)).at == Clean(p + 1)
  {
    ParenTerm(s, Clean(p));
  }

  /** A group whose inner union ends just before a `)` is a paren ending after it. */
  lemma GroupParen(s: string, p: nat, k: nat)
    requires Supported(s) && p < k < |s| && s[p] == '(' && s[k] == ')'
    requires Union(s, Clean(p + 1)).at == Clean(k)
    ensures Paren(s, Clean(p)).at == Clean(k + 1)
  {
    assert ConsumeAt(s, Clean(p)).at == Clean(p + 1);
    assert Peek(s, Clean(k)) == Some(')');
    assert ConsumeAt(s, Clean(k)).at == Clean(k + 1);
    ParenGroup(s, Clean(p));
  }

  /** A paren followed by one postfix operator is a unary ending after the operator. */
  lemma UnaryWithOp(s: string, p: nat, k: nat)
    requires Supported(s) && p < k < |s| && !IsStructural(s[p]) && IsPostfix(s[k])
    requires Paren(s, Clean(p)).at == Clean(k)
    ensures Unary(s, Clean(p)).at == Clean(k + 1)
  {
    UnarySeq(s, Clean(p));
  }

  /** A paren followed by no postfix operator is a unary ending where the paren does. */
  lemma UnaryNoOp(s: string, p: nat, k: nat)
    requires Supported(s) && p < k <= |s| && !IsStructural(s[p])
    requires k == |s| || !IsPostfix(s[k])
    requires Paren(s, Clean(p)).at == Clean(k)
    ensures Unary(s, Clean(p)).at == Clean(k)
  {
    UnarySeq(s, Clean(p));
  }

  /** A literal followed by one postfix operator. */
  lemma PlainWithOp(s: string, p: nat)
    requires Supported(s) && p + 1 < |s| && IsPlain(s[p]) && IsPostfix(s[p + 1])
    ensures Unary(s, Clean(p)).at == Clean(p + 2)
  {
    PlainParen(s, p);
    UnaryWithOp(s, p, p + 1);
  }

  /** A unary followed by the start of another concatenation. */
  lemma ConcatMore(s: string, p: nat, k: nat, m: nat)
    requires Supported(s) && p < k < |s| && !IsStructural(s[p]) && !IsStructural(s[k])
    requires Unary(s, Clean(p)).at == Clean(k) && Concat(s, Clean(k)).at == Clean(m)
    ensures Concat(s, Clean(p)).at == Clean(m)
  {
    ConcatSeq(s, Clean(p));
  }

  /** A unary followed by the end of the pattern, a `)` or a `|` ends the concatenation. */
  lemma ConcatLast(s: string, p: nat, k: nat)
    requires Supported(s) && p < k <= |s| && !IsStructural(s[p])
    requires k == |s| || s[k] == ')' || s[k] == '|'
    requires Unary(s, Clean(p)).at == Clean(k)
    ensures Concat(s, Clean(p)).at == Clean(k)
  {
    ConcatSeq(s, Clean(p));
  }

  /** A concatenation, a `|`, and a union after it. */
  lemma UnionMore(s: string, p: nat, k: nat, m: nat)
    requires Supported(s) && p < k < |s| && !IsStructural(s[p]) && s[k] == '|'
    requires Concat(s, Clean(p)).at == Clean(k) && Union(s, Clean(k + 1)).at == Clean(m)
    ensures Union(s, Clean(p)).at == Clean(m)
  {
    assert ConsumeAt(s, Clean(k)).at == Clean(k + 1);
    UnionSeq(s, Clean(p));
    UnionPrimeBar(s, Clean(k));
  }

  /** A concatenation followed by the end of the pattern or a `)` ends the union. */
  lemma UnionLast(s: string, p: nat, k: nat)
    requires Supported(s) && p < k <= |s| && !IsStructural(s[p])
    requires k == |s| || s[k] == ')'
    requires Concat(s, Clean(p)).at == Clean(k)
    ensures Union(s, Clean(p)).at == Clean(k)
  {
    UnionSeq(s, Clean(p));
  }

  /** A run of literals followed by the end of the pattern or a `)` is a whole union. */
  lemma LiteralUnion(s: string, p: nat, k: nat)
    requires Supported(s) && p < k <= |s| && (k == |s| || s[k] == ')')
    requires forall j | p <= j < k :: IsPlain(s[j])
    ensures Union(s, Clean(p)).at == Clean(k)
  {
    LiteralRun(s, Clean(p), k);
    UnionLast(s, p, k);
  }

  /** A run of literals, a `|`, and a union after it. */
  lemma LiteralAlternative(s: string, p: nat, k: nat, m: nat)
    requires Supported(s) && p < k < |s| && s[k] == '|'
    requires forall j | p <= j < k :: IsPlain(s[j])
    requires Union(s, Clean(k + 1)).at == Clean(m)
    ensures Union(s, Clean(p)).at == Clean(m)
  {
    LiteralRun(s, Clean(p), k);
    UnionMore(s, p, k, m);
  }

  /** A group of literals is one paren. */
  lemma LiteralGroupParen(s: string, p: nat, k: nat)
    requires Supported(s) && p + 1 < k < |s| && s[p] == '(' && s[k] == ')'
    requires forall j | p < j < k :: IsPlain(s[j])
    ensures Paren(s, Clean(p)).at == Clean(k + 1)
  {
    assert forall j | p + 1 <= j < k :: IsPlain(s[j]);
    LiteralUnion(s, p + 1, k);
    GroupParen(s, p, k);
  }

  /** A group of literals, with no postfix operator after it, is one unary. */
  lemma LiteralGroupUnary(s: string, p: nat, k: nat)
    requires Supported(s) && p + 1 < k < |s| && s[p] == '(' && s[k] == ')'
    requires forall j | p < j < k :: IsPlain(s[j])
    requires k + 1 == |s| || !IsPostfix(s[k + 1])
    ensures Unary(s, Clean(p)).at == Clean(k + 1)
  {
    LiteralGroupParen(s, p, k);
    UnaryNoOp(s, p, k + 1);
  }

  /** A unary followed by the end of the pattern or a `)` is a whole union. */
  lemma UnaryUnion(s: string, p: nat, k: nat)
    requires Supported(s) && p < k <= |s| && !IsStructural(s[p]) && (k == |s| || s[k] == ')')
    requires Unary(s, Clean(p)).at == Clean(k)
    ensures Union(s, Clean(p)).at == Clean(k)
  {
    ConcatLast(s, p, k);
    UnionLast(s, p, k);
  }

  /** A literal with one postfix operator, followed by the end of the pattern, a `)` or a `|`. */
  lemma PostfixLiteralConcat(s: string, p: nat)
    requires Supported(s) && p + 2 <= |s| && IsPlain(s[p]) && IsPostfix(s[p + 1])
    requires p + 2 == |s| || s[p + 2] == ')' || s[p + 2] == '|'
    ensures Concat(s, Clean(p)).at == Clean(p + 2)
  {
    PlainWithOp(s, p);
    ConcatLast(s, p, p + 2);
  }

  /** Two literals, each with one postfix operator, as one concatenation. */
  lemma TwoPostfixLiterals(s: string, p: nat)
    requires Supported(s) && p + 4 <= |s| && IsPlain(s[p]) && IsPostfix(s[p + 1])
    requires IsPlain(s[p + 2]) && IsPostfix(s[p + 3])
    requires p + 4 == |s| || s[p + 4] == ')' || s[p + 4] == '|'
    ensures Concat(s, Clean(p)).at == Clean(p + 4)
  {
    PostfixLiteralConcat(s, p + 2);
    PlainWithOp(s, p);
    ConcatMore(s, p, p + 2, p + 4);
  }

  /** A group of literals that ends its concatenation. */
  lemma LastGroupConcat(s: string, p: nat, k: nat)
    requires Supported(s) && p + 1 < k < |s| && s[p] == '(' && s[k] == ')'
    requires forall j | p < j < k :: IsPlain(s[j])
    requires k + 1 == |s| || s[k + 1] == ')' || s[k + 1] == '|'
    ensures Concat(s, Clean(p)).at == Clean(k + 1)
  {
    LiteralGroupUnary(s, p, k);
    ConcatLast(s, p, k + 1);
  }

  /** A group of literals followed by another group in the same concatenation. */
  lemma GroupThenConcat(s: string, p: nat, k: nat, m: nat)
    requires Supported(s) && p + 1 < k && k + 1 < |s| && s[p] == '(' && s[k] == ')' && s[k + 1] == '('
    requires forall j | p < j < k :: IsPlain(s[j])
    requires Concat(s, Clean(k + 1)).at == Clean(m)
    ensures Concat(s, Clean(p)).at == Clean(m)
  {
    LiteralGroupUnary(s, p, k);
    ConcatMore(s, p, k + 1, m);
  }

  /** Two groups of literals in a row that end their concatenation. */
  lemma TwoLiteralGroups(s: string, p: nat, k1: nat, k2: nat)
    requires Supported(s) && p + 1 < k1 && k1 + 2 < k2 < |s|
    requires s[p] == '(' && s[k1] == ')' && s[k1 + 1] == '(' && s[k2] == ')'
    requires forall j | p < j < k1 :: IsPlain(s[j])
    requires forall j | k1 + 1 < j < k2 :: IsPlain(s[j])
    requires k2 + 1 == |s| || s[k2 + 1] == ')' || s[k2 + 1] == '|'
    ensures Concat(s, Clean(p)).at == Clean(k2 + 1)
  {
    LastGroupConcat(s, k1 + 1, k2);
    GroupThenConcat(s, p, k1, k2 + 1);
  }

  /** Three groups of literals in a row that end their concatenation. */
  lemma ThreeLiteralGroups(s: string, p: nat, k1: nat, k2: nat, k3: nat)
    requires Supported(s) && p + 1 < k1 && k1 + 2 < k2 && k2 + 2 < k3 < |s|
    requires s[p] == '(' && s[k1] == ')' && s[k1 + 1] == '(' && s[k2] == ')'
    requires s[k2 + 1] == '(' && s[k3] == ')'
    requires forall j | p < j < k1 :: IsPlain(s[j])
    requires forall j | k1 + 1 < j < k2 :: IsPlain(s[j])
    requires forall j | k2 + 1 < j < k3 :: IsPlain(s[j])
    requires k3 + 1 == |s| || s[k3 + 1] == ')' || s[k3 + 1] == '|'
    ensures Concat(s, Clean(p)).at == Clean(k3 + 1)
  {
    TwoLiteralGroups(s, k1 + 1, k2, k3);
    GroupThenConcat(s, p, k1, k3 + 1);
  }

  /** A top-level union read to the end of the pattern without error is accepted. */
  lemma AcceptedUnion(s: string)
    requires Supported(s)
    requires Union(s, Clean(0)).at == Clean(|s|)
    ensures Errors(s) == []
  {
  }

  /** A pattern that is one group, whose inner union is read without error, is accepted. */
  lemma AcceptedGroup(s: string)
    requires Supported(s) && 2 <= |s| && s[0] == '(' && s[|s| - 1] == ')'
    requires Union(s, Clean(1)).at == Clean(|s| - 1)
    ensures Errors(s) == []
  {
    GroupParen(s, 0, |s| - 1);
    UnaryNoOp(s, 0, |s|);
    UnaryUnion(s, 0, |s|);
  }

  /** An error anywhere in the top-level union rejects the pattern. */
  lemma RejectedUnion(s: string)
    requires Supported(s)
    requires Union(s, Clean(0)).at.errors != []
    ensures Errors(s) != []
  {
  }

  /**
   * An error in the concatenation after a unary is an error of the whole
   * union that begins with that unary.
   */
  lemma RejectedAfterUnary(s: string, p: nat, k: nat)
    requires Supported(s) && p < k < |s| && !IsStructural(s[p]) && !IsStructural(s[k])
    requires Unary(s, Clean(p)).at == Clean(k)
    requires Concat(s, Clean(k)).at.errors != []
    ensures Union(s, Clean(p)).at.errors != []
  {
    ConcatSeq(s, Clean(p));
    UnionSeq(s, Clean(p));
  }

  /** An error in the paren at the start of a union is an error of the union. */
  lemma RejectedParen(s: string, p: nat)
    requires Supported(s) && p < |s| && !IsStructural(s[p])
    requires Paren(s, Clean(p)).at.errors != []
    ensures Union(s, Clean(p)).at.errors != []
  {
    UnarySeq(s, Clean(p));
    ConcatSeq(s, Clean(p));
    UnionSeq(s, Clean(p));
  }

  /** The repository's list of valid regexes. */
  function ValidRegexes(): seq<string>
  {
    [
      "abcd",
      "a|b|c|d",
      "(ab)|(cd)*",
      "(a|b+c?|d)",
      "(abcd)",
      "a|a",
      "(bc)",
      "(abc)(abc)(abc)|(abc)(abc)",
      "a|b+(c?|d)",
      "(a|b)",
      "(\\w)",
      "\\\\"
    ]
  }

  /** Every pattern of the list of valid regexes is parsed without error. */
  lemma ValidPatternsAccepted(s: string)
    requires s in ValidRegexes()
    ensures Supported(s) && Errors(s) == []
  {
    if s == "abcd" {
      AcceptsLiterals(s);
    } else if s == "a|b|c|d" {
      AcceptsFourAlternatives(s);
    } else if s == "(ab)|(cd)*" {
      AcceptsGroupOrStarredGroup(s);
    } else if s == "(a|b+c?|d)" {
      AcceptsGroupedPostfixAlternatives(s);
    } else if s == "(abcd)" {
      AcceptsGroup(s);
    } else if s == "a|a" {
      AcceptsAlternatives(s);
    } else if s == "(bc)" {
      AcceptsShortGroup(s);
    } else if s == "(abc)(abc)(abc)|(abc)(abc)" {
      AcceptsRepeatedGroups(s);
    } else if s == "a|b+(c?|d)" {
      AcceptsPlusBeforeGroup(s);
    } else if s == "(a|b)" {
      AcceptsGroupedAlternatives(s);
    } else if s == "(\\w)" {
      AcceptsGroupedEscape(s);
    } else {
      AcceptsEscapedBackslash(s);
    }
  }

  lemma AcceptsLiterals(s: string)
    requires s == "abcd"
    ensures Supported(s) && Errors(s) == []
  {
    LiteralUnion(s, 0, 4);
    AcceptedUnion(s);
  }

  /** From each letter of `a|b|c|d` on, the rest is one union. */
  lemma {:induction false} FourAlternativesFrom(s: string, p: nat)
    requires s == "a|b|c|d" && p in {0, 2, 4, 6}
    ensures Union(s, Clean(p)).at == Clean(7)
    decreases 7 - p
  {
    if p == 6 {
      LiteralUnion(s, 6, 7);
    } else {
      FourAlternativesFrom(s, p + 2);
      LiteralAlternative(s, p, p + 1, 7);
    }
  }

  lemma AcceptsFourAlternatives(s: string)
    requires s == "a|b|c|d"
    ensures Supported(s) && Errors(s) == []
  {
    FourAlternativesFrom(s, 0);
    AcceptedUnion(s);
  }

  /** `(cd)*`, the second alternative of `(ab)|(cd)*`, is a union. */
  lemma StarredGroup(s: string)
    requires s == "(ab)|(cd)*"
    ensures Union(s, Clean(5)).at == Clean(10)
  {
    LiteralGroupParen(s, 5, 8);
    UnaryWithOp(s, 5, 9);
    UnaryUnion(s, 5, 10);
  }

  lemma AcceptsGroupOrStarredGroup(s: string)
    requires s == "(ab)|(cd)*"
    ensures Supported(s) && Errors(s) == []
  {
    LastGroupConcat(s, 0, 3);
    StarredGroup(s);
    UnionMore(s, 0, 4, 10);
    AcceptedUnion(s);
  }

  /** `b+c?|d)` inside `(a|b+c?|d)`: the concatenation `b+c?` and the union after it. */
  lemma PostfixAlternative(s: string)
    requires s == "(a|b+c?|d)"
    ensures Union(s, Clean(3)).at == Clean(9)
  {
    TwoPostfixLiterals(s, 3);
    LiteralUnion(s, 8, 9);
    UnionMore(s, 3, 7, 9);
  }

  lemma AcceptsGroupedPostfixAlternatives(s: string)
    requires s == "(a|b+c?|d)"
    ensures Supported(s) && Errors(s) == []
  {
    PostfixAlternative(s);
    LiteralAlternative(s, 1, 2, 9);
    AcceptedGroup(s);
  }

  lemma AcceptsGroup(s: string)
    requires s == "(abcd)"
    ensures Supported(s) && Errors(s) == []
  {
    LiteralUnion(s, 1, 5);
    AcceptedGroup(s);
  }

  lemma AcceptsAlternatives(s: string)
    requires s == "a|a"
    ensures Supported(s) && Errors(s) == []
  {
    LiteralUnion(s, 2, 3);
    LiteralAlternative(s, 0, 1, 3);
    AcceptedUnion(s);
  }

  lemma AcceptsShortGroup(s: string)
    requires s == "(bc)"
    ensures Supported(s) && Errors(s) == []
  {
    LiteralUnion(s, 1, 3);
    AcceptedGroup(s);
  }

  /** `(abc)(abc)(abc)`, the first alternative, is one concatenation. */
  lemma RepeatedGroupsLeft(s: string)
    requires s == "(abc)(abc)(abc)|(abc)(abc)"
    ensures Concat(s, Clean(0)).at == Clean(15)
  {
    ThreeLiteralGroups(s, 0, 4, 9, 14);
  }

  /** `(abc)(abc)`, the second alternative, is one union. */
  lemma RepeatedGroupsRight(s: string)
    requires s == "(abc)(abc)(abc)|(abc)(abc)"
    ensures Union(s, Clean(16)).at == Clean(26)
  {
    TwoLiteralGroups(s, 16, 20, 25);
    UnionLast(s, 16, 26);
  }

  lemma AcceptsRepeatedGroups(s: string)
    requires s == "(abc)(abc)(abc)|(abc)(abc)"
    ensures Supported(s) && Errors(s) == []
  {
    RepeatedGroupsLeft(s);
    RepeatedGroupsRight(s);
    UnionMore(s, 0, 15, 26);
    AcceptedUnion(s);
  }


  /** Inside the group of `a|b+(c?|d)`: `c?|d` is one union. */
  lemma PlusBeforeGroupInner(s: string)
    requires s == "a|b+(c?|d)"
    ensures Union(s, Clean(5)).at == Clean(9)
  {
    PostfixLiteralConcat(s, 5);
    LiteralUnion(s, 8, 9);
    UnionMore(s, 5, 7, 9);
  }

  /** `b+(c?|d)`, the second alternative of `a|b+(c?|d)`, is one union. */
  lemma PlusBeforeGroupAlternative(s: string)
    requires s == "a|b+(c?|d)"
    ensures Union(s, Clean(2)).at == Clean(10)
  {
    assert Concat(s, Clean(4)).at == Clean(10) by {
      PlusBeforeGroupInner(s);
      GroupParen(s, 4, 9);
      UnaryNoOp(s, 4, 10);
      ConcatLast(s, 4, 10);
    }
    PlainWithOp(s, 2);
    ConcatMore(s, 2, 4, 10);
    UnionLast(s, 2, 10);
  }

  lemma AcceptsPlusBeforeGroup(s: string)
    requires s == "a|b+(c?|d)"
    ensures Supported(s) && Errors(s) == []
  {
    PlusBeforeGroupAlternative(s);
    LiteralAlternative(s, 0, 1, 10);
    AcceptedUnion(s);
  }

  lemma AcceptsGroupedAlternatives(s: string)
    requires s == "(a|b)"
    ensures Supported(s) && Errors(s) == []
  {
    LiteralUnion(s, 3, 4);
    LiteralAlternative(s, 1, 2, 4);
    AcceptedGroup(s);
  }

  lemma AcceptsGroupedEscape(s: string)
    requires s == "(\\w)"
    ensures Supported(s) && Errors(s) == []
  {
    assert Unary(s, Clean(1)).at == Clean(3) by {
      ParenTerm(s, Clean(1));
      EscapeAccepted(s, Clean(1));
      UnaryNoOp(s, 1, 3);
    }
    UnaryUnion(s, 1, 3);
    AcceptedGroup(s);
  }

  lemma AcceptsEscapedBackslash(s: string)
    requires s == "\\\\"
    ensures Supported(s) && Errors(s) == []
  {
    assert Unary(s, Clean(0)).at == Clean(2) by {
      ParenTerm(s, Clean(0));
      EscapeAccepted(s, Clean(0));
      UnaryNoOp(s, 0, 2);
    }
    UnaryUnion(s, 0, 2);
    AcceptedUnion(s);
  }

  /** The repository's list of invalid regexes. */
  function InvalidRegexes(): seq<string>
  {
    [
      "(abcd",
      "a||c|d",
      "|",
      "()",
      ")aaab(",
      "a|b+c?|d)",
      "a)",
      "(abcd)(",
      "(a|)",
      "(\\a)",
      "\\",
      "\\\\\\"
    ]
  }

  /** Every pattern of the list of invalid regexes is parsed with at least one error. */
  lemma InvalidPatternsRejected(s: string)
    requires s in InvalidRegexes()
    ensures Supported(s) && Errors(s) != []
  {
    if s == "(abcd" {
      RejectsUnclosedGroup(s);
    } else if s == "a||c|d" {
      RejectsEmptyAlternative(s);
    } else if s == "|" {
      RejectsLoneBar(s);
    } else if s == "()" {
      RejectsEmptyGroup(s);
    } else if s == ")aaab(" {
      RejectsUnopenedStart(s);
    } else if s == "a|b+c?|d)" {
      RejectsUnopenedAfterPostfix(s);
    } else if s == "a)" {
      RejectsUnopenedGroup(s);
    } else if s == "(abcd)(" {
      RejectsTrailingOpenGroup(s);
    } else if s == "(a|)" {
      RejectsEmptyLastAlternative(s);
    } else if s == "(\\a)" {
      RejectsGroupedBadEscape(s);
    } else if s == "\\" {
      RejectsLoneBackslash(s);
    } else {
      RejectsTrailingBackslash(s);
    }
  }

  lemma RejectsUnclosedGroup(s: string)
    requires s == "(abcd"
    ensures Supported(s) && Errors(s) != []
  {
    assert Paren(s, Clean(0)).at.errors != [] by {
      LiteralUnion(s, 1, 5);
      ParenGroup(s, Clean(0));
    }
    RejectedParen(s, 0);
    RejectedUnion(s);
  }

  lemma RejectsEmptyAlternative(s: string)
    requires s == "a||c|d"
    ensures Supported(s) && Errors(s) != []
  {
    assert UnionPrime(s, Clean(1)).at.errors != [] by {
      UnionPrimeBar(s, Clean(1));
      StructuralStartRejected(s, Clean(2));
    }
    assert Union(s, Clean(0)).at.errors != [] by {
      LiteralRun(s, Clean(0), 1);
      UnionSeq(s, Clean(0));
    }
    RejectedUnion(s);
  }

  lemma RejectsLoneBar(s: string)
    requires s == "|"
    ensures Supported(s) && Errors(s) != []
  {
    StructuralStartRejected(s, Start);
  }

  lemma RejectsEmptyGroup(s: string)
    requires s == "()"
    ensures Supported(s) && Errors(s) != []
  {
    assert Paren(s, Clean(0)).at.errors != [] by {
      StructuralStartRejected(s, Clean(1));
      ParenGroup(s, Clean(0));
    }
    RejectedParen(s, 0);
    RejectedUnion(s);
  }

  lemma RejectsUnopenedStart(s: string)
    requires s == ")aaab("
    ensures Supported(s) && Errors(s) != []
  {
    StructuralStartRejected(s, Start);
  }

  /** `b+c?|d` inside `a|b+c?|d)`: the concatenation `b+c?` and the union after it. */
  lemma PostfixAlternativeBeforeParen(s: string)
    requires s == "a|b+c?|d)"
    ensures Union(s, Clean(2)).at == Clean(8)
  {
    TwoPostfixLiterals(s, 2);
    LiteralUnion(s, 7, 8);
    UnionMore(s, 2, 6, 8);
  }

  lemma RejectsUnopenedAfterPostfix(s: string)
    requires s == "a|b+c?|d)"
    ensures Supported(s) && Errors(s) != []
  {
    PostfixAlternativeBeforeParen(s);
    LiteralAlternative(s, 0, 1, 8);
    TrailingInputRejected(s);
  }

  lemma RejectsUnopenedGroup(s: string)
    requires s == "a)"
    ensures Supported(s) && Errors(s) != []
  {
    LiteralUnion(s, 0, 1);
    TrailingInputRejected(s);
  }

  /** The `(` at the end of `(abcd)(` opens a group with nothing in it. */
  lemma TrailingOpenGroupTail(s: string)
    requires s == "(abcd)("
    ensures Concat(s, Clean(6)).at.errors != []
  {
    assert Paren(s, Clean(6)).at.errors != [] by {
      StructuralStartRejected(s, Clean(7));
      ParenGroup(s, Clean(6));
    }
    UnarySeq(s, Clean(6));
    ConcatSeq(s, Clean(6));
  }

  lemma RejectsTrailingOpenGroup(s: string)
    requires s == "(abcd)("
    ensures Supported(s) && Errors(s) != []
  {
    TrailingOpenGroupTail(s);
    LiteralGroupUnary(s, 0, 5);
    RejectedAfterUnary(s, 0, 6);
    RejectedUnion(s);
  }

  /** Inside `(a|)`: the alternative after the bar is empty. */
  lemma EmptyLastAlternativeInner(s: string)
    requires s == "(a|)"
    ensures Union(s, Clean(1)).at.errors != []
  {
    assert UnionPrime(s, Clean(2)).at.errors != [] by {
      StructuralStartRejected(s, Clean(3));
      UnionPrimeBar(s, Clean(2));
    }
    LiteralRun(s, Clean(1), 2);
    UnionSeq(s, Clean(1));
  }

  lemma RejectsEmptyLastAlternative(s: string)
    requires s == "(a|)"
    ensures Supported(s) && Errors(s) != []
  {
    assert Paren(s, Clean(0)).at.errors != [] by {
      EmptyLastAlternativeInner(s);
      ParenGroup(s, Clean(0));
    }
    RejectedParen(s, 0);
    RejectedUnion(s);
  }

  lemma RejectsGroupedBadEscape(s: string)
    requires s == "(\\a)"
    ensures Supported(s) && Errors(s) != []
  {
    assert Union(s, Clean(1)).at.errors != [] by {
      EscapeRejected(s, Clean(1));
      ParenTerm(s, Clean(1));
      RejectedParen(s, 1);
    }
    assert Paren(s, Clean(0)).at.errors != [] by {
      ParenGroup(s, Clean(0));
    }
    RejectedParen(s, 0);
    RejectedUnion(s);
  }

  lemma RejectsLoneBackslash(s: string)
    requires s == "\\"
    ensures Supported(s) && Errors(s) != []
  {
    EscapeRejected(s, Clean(0));
    ParenTerm(s, Clean(0));
    RejectedParen(s, 0);
    RejectedUnion(s);
  }

  lemma RejectsTrailingBackslash(s: string)
    requires s == "\\\\\\"
    ensures Supported(s) && Errors(s) != []
  {
    assert Concat(s, Clean(2)).at.errors != [] by {
      EscapeRejected(s, Clean(2));
      ParenTerm(s, Clean(2));
      UnarySeq(s, Clean(2));
      ConcatSeq(s, Clean(2));
    }
    assert Unary(s, Clean(0)).at == Clean(2) by {
      EscapeAccepted(s, Clean(0));
      ParenTerm(s, Clean(0));
      UnaryNoOp(s, 0, 2);
    }
    RejectedAfterUnary(s, 0, 2);
    RejectedUnion(s);
  }

  /** `a**`: the second `*` cannot begin a concatenation. */
  lemma RejectsDoublePostfix(s: string)
    requires s == "a**"
    ensures Supported(s) && Errors(s) != []
  {
    assert Concat(s, Clean(0)).at.errors != [] by {
      PlainParen(s, 0);
      DoublePostfixRejected(s, Clean(0));
    }
    UnionSeq(s, Clean(0));
    RejectedUnion(s);
  }

  /**
   * The parser of src/parser.rs: the characters not yet taken from the
   * pattern's iterator begin at `pos`; `index` counts the `consume` calls and
   * `errors` the positions recorded. Each `parse_*` method leaves the parser
   * at the cursor, and returns the fragment, of the function of the same
   * production.
   */
  class Parser {
    const input: string
    var pos: nat
    var index: nat
    var errors: seq<nat>

    function At(): Cursor
      reads this
    {
      Cursor(pos, index, errors)
    }

    predicate Valid()
      reads this
    {
      Supported(input) && Inv(input, At())
    }

    constructor (s: string)
      requires Supported(s)
      ensures input == s && At() == Start && Valid()
    {
      input := s;
      pos := 0;
      index := 0;
      errors := [];
    }

    /** `parse`: the error positions of the whole pattern. */
    static method Parse(s: string) returns (result: seq<nat>)
      requires Supported(s)
      ensures result == Errors(s)
    {
      var parser := new Parser(s);
      var _ := parser.ParseUnion();
      var rest := parser.Next();
      if rest.Some? {
        var _ := parser.Error();
      }
      result := parser.errors;
    }

    /** The iterator's `next`: takes one character, if any, without counting it. */
    method Next() returns (c: Option<char>)
      requires Valid()
      modifies this
      ensures Valid() && c == Peek(input, old(At()))
      ensures At() == Cursor(if old(pos) < |input| then old(pos) + 1 else old(pos), old(index), old(errors))
    {
      c := Peek(input, At());
      if pos < |input| {
        pos := pos + 1;
      }
    }

    method Consume() returns (c: Option<char>)
      requires Valid() && pos < |input|
      modifies this
      ensures Valid() && Parsed(At(), c) == ConsumeAt(input, old(At()))
    {
      c := Next();
      index := index + 1;
    }

    method Error() returns (f: Option<Leaf>)
      requires Valid()
      modifies this
      ensures Valid() && Parsed(At(), f) == ErrorAt(input, old(At()))
    {
      errors := errors + [index];
      var _ := Next();
      f := None;
    }

    method ParseUnion() returns (f: Option<Leaf>)
      requires Valid()
      modifies this
      ensures Valid() && Parsed(At(), f) == Union(input, old(At()))
      decreases |input| - pos, 4
    {
      match Peek(input, At())
      case None =>
        f := Error();
      case Some(c) =>
        if IsStructural(c) {
          f := Error();
        } else {
          var f1 := ParseConcat();
          var f2 := ParseUnionPrime();
          f := StubUnion(f1, f2);
        }
    }

    method ParseUnionPrime() returns (f: Option<Leaf>)
      requires Valid()
      modifies this
      ensures Valid() && Parsed(At(), f) == UnionPrime(input, old(At()))
      decreases |input| - pos, 4
    {
      match Peek(input, At())
      case None =>
        f := None;
      case Some(c) =>
        if c == ')' {
          f := None;
        } else if c == '|' {
          var _ := Consume();
          f := ParseUnion();
        } else {
          f := Error();
        }
    }

    method ParseConcat() returns (f: Option<Leaf>)
      requires Valid()
      modifies this
      ensures Valid() && Parsed(At(), f) == Concat(input, old(At()))
      decreases |input| - pos, 3
    {
      match Peek(input, At())
      case None =>
        f := Error();
      case Some(c) =>
        if IsStructural(c) {
          f := Error();
        } else {
          var f1 := ParseUnary();
          var f2 := ParseConcatPrime();
          f := StubConcatenation(f1, f2);
        }
    }

    method ParseConcatPrime() returns (f: Option<Leaf>)
      requires Valid()
      modifies this
      ensures Valid() && Parsed(At(), f) == ConcatPrime(input, old(At()))
      decreases |input| - pos, 4
    {
      match Peek(input, At())
      case None =>
        f := None;
      case Some(c) =>
        if c == ')' || c == '|' {
          f := None;
        } else if IsPostfix(c) {
          f := Error();
        } else {
          f := ParseConcat();
        }
    }

    method ParseUnary() returns (f: Option<Leaf>)
      requires Valid()
      modifies this
      ensures Valid() && Parsed(At(), f) == Unary(input, old(At()))
      decreases |input| - pos, 2
    {
      match Peek(input, At())
      case None =>
        f := Error();
      case Some(c) =>
        if IsStructural(c) {
          f := Error();
        } else {
          var f1 := ParseParen();
          var op := ParseUnaryOp();
          f := StubUnaryOperator(f1, op);
        }
    }

    method ParseUnaryOp() returns (op: Option<char>)
      requires Valid()
      modifies this
      ensures Valid() && Parsed(At(), op) == UnaryOp(input, old(At()))
    {
      match Peek(input, At())
      case None =>
        op := None;
      case Some(c) =>
        if IsPostfix(c) {
          op := Consume();
        } else {
          op := None;
        }
    }

    method ParseParen() returns (f: Option<Leaf>)
      requires Valid()
      modifies this
      ensures Valid() && Parsed(At(), f) == Paren(input, old(At()))
      decreases |input| - pos, 1
    {
      match Peek(input, At())
      case None =>
        f := Error();
      case Some(c) =>
        if c == '(' {
          var _ := Consume();
          var fragment := ParseUnion();
          if Peek(input, At()) == Some(')') {
            var _ := Consume();
            f := fragment;
          } else {
            f := Error();
          }
        } else if IsStructural(c) {
          f := Error();
        } else {
          f := ParseTerm();
        }
    }

    method ParseTerm() returns (f: Option<Leaf>)
      requires Valid()
      modifies this
      ensures Valid() && Parsed(At(), f) == Term(input, old(At()))
    {
      match Peek(input, At())
      case None =>
        f := Error();
      case Some(c) =>
        if c == '(' || IsStructural(c) {
          f := Error();
        } else if c == '\\' {
          var _ := Consume();
          var e := Peek(input, At());
          if e.Some? && IsEscapable(e.value) {
            var _ := Consume();
            f := None;
          } else {
            f := Error();
          }
        } else {
          var _ := Consume();
          f := Some(Leaf([c]));
        }
    }
  }
}
