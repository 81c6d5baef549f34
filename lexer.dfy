/** The lexer of the configuration language (build.py, ConfigRead.lex): every character is
    looked up in a fixed table and becomes a token `[category, char]`; a character that is
    not in the table is reported and dropped. */
module Lexer {

  /** The token categories, named as the source names them. */
  datatype Category =
    | Letter | Number | Punctuation
    | Backslash | Comment | Quota | DoubleQuota | Variable
    | ParentessLeft | ParentessRight | Dash | Whitespace | NLine

  datatype Token = Token(kind: Category, ch: char)

  predicate IsAsciiLetter(c: char) { 'a' <= c <= 'z' || 'A' <= c <= 'Z' }

  predicate IsDigit(c: char) { '0' <= c <= '9' }

  /** Python's `string.punctuation`. */
  const PunctuationChars: set<char> :=
    { '!', '"', '#', '$', '%', '&', '\'', '(', ')', '*', '+', ',', '-', '.', '/',
      ':', ';', '<', '=', '>', '?', '@', '[', '\\', ']', '^', '_', '`', '{', '|', '}', '~' }

  /** The single-character overrides, applied last. */
  const Overrides: map<char, Category> :=
    map[ '\\' := Backslash, '#' := Comment, '\'' := Quota, '"' := DoubleQuota,
         '?' := Variable, '(' := ParentessLeft, ')' := ParentessRight, '-' := Dash,
         ' ' := Whitespace, '\n' := NLine, ';' := NLine ]

  /** The lookup table, built in the source's order: letters, then digits, then
      punctuation, then the overrides. Map union keeps the right operand's entry, as
      `dict.update` keeps the later one. */
  const Table: map<char, Category> := WithPunctuation + Overrides

  const WithPunctuation: map<char, Category> := WithDigits + (map c | c in PunctuationChars :: Punctuation)

  const WithDigits: map<char, Category> := (map c: char | IsAsciiLetter(c) :: Letter) + (map c: char | IsDigit(c) :: Number)

  /** The category of one character, if it has one: the entry that the last update of
      the table left for it (see TableLookup). */
  function Classify(c: char): Option<Category>
  {
    if c in Overrides then Some(Overrides[c])
    else if c in PunctuationChars then Some(Punctuation)
    else if IsDigit(c) then Some(Number)
    else if IsAsciiLetter(c) then Some(Letter)
    else None
  }

  /** Looking a character up in the table built update by update gives its category. */
  lemma TableLookup(c: char)
    ensures c in Table <==> Classify(c).Some?
    ensures c in Table ==> Classify(c) == Some(Table[c])
  {
    TableEntries(c);
  }

  /** Letters and digits keep their class, the overrides win over punctuation, every
      other punctuation character is PUNCTUATION, and nothing else has a category. */
  lemma Classification(c: char)
    ensures IsAsciiLetter(c) ==> Classify(c) == Some(Letter)
    ensures IsDigit(c) ==> Classify(c) == Some(Number)
    ensures c in Overrides ==> Classify(c) == Some(Overrides[c])
    ensures c in PunctuationChars && c !in Overrides ==> Classify(c) == Some(Punctuation)
    ensures Classify(c).None? <==> !IsAsciiLetter(c) && !IsDigit(c) && c !in PunctuationChars && c !in Overrides
  {
    if IsDigit(c) || IsAsciiLetter(c) {
      assert c !in PunctuationChars && c !in Overrides;
    }
  }

  /** Membership in the table and the entry it holds. */
  lemma TableEntries(c: char)
    ensures c in Table <==> IsAsciiLetter(c) || IsDigit(c) || c in PunctuationChars || c in Overrides
    ensures c in Overrides ==> c in Table && Table[c] == Overrides[c]
    ensures c !in Overrides && c in PunctuationChars ==> c in Table && Table[c] == Punctuation
    ensures IsDigit(c) ==> c in Table && Table[c] == Number
    ensures IsAsciiLetter(c) ==> c in Table && Table[c] == Letter
  {
    PunctuationEntries(c);
    if IsDigit(c) || IsAsciiLetter(c) {
      assert c !in Overrides;
    }
  }

  lemma PunctuationEntries(c: char)
    ensures c in WithPunctuation <==> IsAsciiLetter(c) || IsDigit(c) || c in PunctuationChars
    ensures c in PunctuationChars ==> WithPunctuation[c] == Punctuation
    ensures IsDigit(c) ==> c in WithPunctuation && WithPunctuation[c] == Number
    ensures IsAsciiLetter(c) ==> c in WithPunctuation && WithPunctuation[c] == Letter
  {
    if IsDigit(c) || IsAsciiLetter(c) {
      assert c !in PunctuationChars;
    }
  }

  /** The overrides are exactly the characters that the source singles out, and the
      only two that are not punctuation are the space and the newline. */
  lemma OverridesOutsidePunctuation(c: char)
    ensures c in Overrides && c !in PunctuationChars <==> c == ' ' || c == '\n'
  {
  }

  datatype Option<+T> = None | Some(value: T)

  /** The tokens of `data`: one per classified character, in input order. */
  function Lex(data: string): (tokens: seq<Token>)
    ensures |tokens| <= |data|
    ensures forall k :: 0 <= k < |tokens| ==> Classify(tokens[k].ch) == Some(tokens[k].kind)
    decreases |data|
  {
    if data == [] then []
    else
      var last := data[|data| - 1];
      Lex(data[..|data| - 1]) + (match Classify(last) case Some(k) => [Token(k, last)] case None => [])
  }

  /** The characters that the table knows, in input order: the reference for what the lexer keeps. */
  function Known(data: string): (known: string)
    ensures forall c :: c in known ==> Classify(c).Some?
    decreases |data|
  {
    if data == [] then []
    else if Classify(data[|data| - 1]).Some? then Known(data[..|data| - 1]) + [data[|data| - 1]]
    else Known(data[..|data| - 1])
  }

  /** The characters that a token sequence stands for. */
  function Chars(tokens: seq<Token>): (s: string)
    ensures |s| == |tokens|
    ensures forall k :: 0 <= k < |tokens| ==> s[k] == tokens[k].ch
  {
    seq(|tokens|, k requires 0 <= k < |tokens| => tokens[k].ch)
  }

  /** The lexer loses and reorders nothing but the unknown characters. */
  lemma {:induction false} LexKeepsKnown(data: string)
    ensures Chars(Lex(data)) == Known(data)
    decreases |data|
  {
    if data != [] {
      var init := data[..|data| - 1];
      LexKeepsKnown(init);
      var t := Lex(init);
      var last := data[|data| - 1];
      match Classify(last)
      case Some(k) =>
        assert Lex(data) == t + [Token(k, last)];
        assert Chars(t + [Token(k, last)]) == Chars(t) + [last];
      case None =>
        assert Lex(data) == t;
    }
  }

  /** The lexer as the source runs it: a loop that appends a token for every known
      character and reports the position of every unknown one. */
  method LexTokens(data: string) returns (tokens: seq<Token>, unknown: seq<nat>)
    ensures tokens == Lex(data)
    ensures forall p: nat :: p in unknown <==> p < |data| && Classify(data[p]).None?
    ensures forall i, j :: 0 <= i < j < |unknown| ==> unknown[i] < unknown[j]
    ensures |tokens| + |unknown| == |data|
  {
    tokens, unknown := [], [];
    var pos := 0;
    while pos < |data|
      invariant 0 <= pos <= |data|
      invariant tokens == Lex(data[..pos])
      invariant forall p: nat :: p in unknown <==> p < pos && Classify(data[p]).None?
      invariant forall i, j :: 0 <= i < j < |unknown| ==> unknown[i] < unknown[j]
      invariant forall i :: 0 <= i < |unknown| ==> unknown[i] < pos
      invariant |tokens| + |unknown| == pos
    {
      var x := data[pos];
      assert data[..pos + 1][..pos] == data[..pos];
      match Classify(x) {
        case Some(k) => tokens := tokens + [Token(k, x)];
        case None => unknown := unknown + [pos];
      }
      pos := pos + 1;
    }
    assert data[..pos] == data;
  }
}
