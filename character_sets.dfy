/**
 * The character-class tables of src/character_sets.rs. Each table is built by
 * inserting characters one at a time; each method is proved to produce
 * exactly the class its predicate describes, and its size.
 */
module CharacterSets {
  import opened Wrappers

  /** An unsigned 8-bit integer. */
  type Byte = x: int | 0 <= x < 256

  predicate IsLower(c: char)
  {
    'a' <= c <= 'z'
  }

  predicate IsUpper(c: char)
  {
    'A' <= c <= 'Z'
  }

  predicate IsDigit(c: char)
  {
    '0' <= c <= '9'
  }

  /** The characters of `\w`: ASCII letters, digits and underscore. */
  predicate IsWordChar(c: char)
  {
    IsLower(c) || IsUpper(c) || IsDigit(c) || c == '_'
  }

  /** The characters of `\s` in this engine: space and tab only. */
  predicate IsWhitespace(c: char)
  {
    c == ' ' || c == '\t'
  }

  /** `word_chars`: exactly the 63 word characters. */
  method WordChars() returns (r: set<char>)
    ensures forall c: char :: c in r <==> IsWordChar(c)
    ensures |r| == 63
  {
    r := {};
    for c := 'a' as int to 'z' as int + 1
      invariant forall x: char :: x in r <==> 'a' <= x && (x as int) < c
      invariant |r| == c - 'a' as int
    {
      r := r + {c as char};
    }
    for c := 'A' as int to 'Z' as int + 1
      invariant forall x: char :: x in r <==> IsLower(x) || ('A' <= x && (x as int) < c)
      invariant |r| == 26 + (c - 'A' as int)
    {
      r := r + {c as char};
    }
    for c := '0' as int to '9' as int + 1
      invariant forall x: char :: x in r <==> IsLower(x) || IsUpper(x) || ('0' <= x && (x as int) < c)
      invariant |r| == 52 + (c - '0' as int)
    {
      r := r + {c as char};
    }
    r := r + {'_'};
  }

  /** `digits`: exactly `0` to `9`. */
  method Digits() returns (r: set<char>)
    ensures forall c: char :: c in r <==> IsDigit(c)
    ensures |r| == 10
  {
    r := {};
    for c := '0' as int to '9' as int + 1
      invariant forall x: char :: x in r <==> '0' <= x && (x as int) < c
      invariant |r| == c - '0' as int
    {
      r := r + {c as char};
    }
  }

  /** `whitespace`: exactly space and tab. */
  method Whitespace() returns (r: set<char>)
    ensures forall c: char :: c in r <==> IsWhitespace(c)
    ensures |r| == 2
  {
    r := {};
    r := r + {' '};
    r := r + {'\t'};
  }

  /**
   * `range(low, high)`: the characters with code points `low` up to but not
   * including `high`, or the pair `(low, high)` back as an error when
   * `high < low`. `range(x, x)` is therefore the empty set.
   */
  method Range(low: Byte, high: Byte) returns (r: Result<set<char>, (Byte, Byte)>)
    ensures r.Err? <==> high < low
    ensures r.Err? ==> r.error == (low, high)
    ensures r.Ok? ==> forall c: char :: c in r.value <==> low <= c as int < high
    ensures r.Ok? ==> |r.value| == high - low
  {
    if high < low {
      return Err((low, high));
    }
    var chars := {};
    for c := low to high
      invariant forall x: char :: x in chars <==> low <= x as int < c
      invariant |chars| == c - low
    {
      chars := chars + {c as char};
    }
    return Ok(chars);
  }

  /** Every digit is a word character. */
  lemma DigitsAreWordChars(c: char)
    ensures IsDigit(c) ==> IsWordChar(c)
  {
  }

  /** No whitespace character is a word character. */
  lemma WhitespaceIsNotWord(c: char)
    ensures IsWhitespace(c) ==> !IsWordChar(c)
  {
  }
}
