/** The vocabulary shared by the scanner and the parser: token kinds, scanner modes, the keyword table
    and the `(kind, lexeme, line)` token triple. */
module Tokens {

  datatype TokenKind =
    // single characters
    | Equal | TagClose | Quote | AtSign
    // two characters (a tag opener is `<` before a letter)
    | TagOpen | TagEndClose | VarOpen | VarClose | StmtOpen | StmtClose
    // literals
    | TagName | AttrName | AttrValue | Text | Identifier
    // keywords
    | If | Else | EndIf | For | In | EndFor

  /** The lexical modes kept on the scanner's stack. */
  datatype Mode = OpenTagMode | CloseTagMode | AttrNameMode | AttrValueMode | VarIdentifierMode | TextMode | StatementMode

  datatype Token = Token(kind: TokenKind, lexeme: string, line: nat)

  predicate IsKeyword(k: TokenKind) {
    k.If? || k.Else? || k.EndIf? || k.For? || k.In? || k.EndFor?
  }

  /** The word each keyword kind stands for. */
  function KeywordText(k: TokenKind): string
    requires IsKeyword(k)
  {
    match k
    case If => "if"
    case Else => "else"
    case EndIf => "endif"
    case For => "for"
    case In => "in"
    case EndFor => "endfor"
  }

  /** The keyword table lookup: a statement word that is a key of the table becomes its keyword kind,
      any other word an identifier. */
  function KeywordKind(word: string): (k: TokenKind)
    ensures k.Identifier? || (IsKeyword(k) && KeywordText(k) == word)
    ensures k.Identifier? <==> (forall kw :: IsKeyword(kw) ==> KeywordText(kw) != word)
  {
    if word == "if" then If
    else if word == "else" then Else
    else if word == "endif" then EndIf
    else if word == "for" then For
    else if word == "in" then In
    else if word == "endfor" then EndFor
    else Identifier
  }

  /** Looking a keyword's own word up in the table gives that keyword back. */
  lemma KeywordRoundTrip(k: TokenKind)
    requires IsKeyword(k)
    ensures KeywordKind(KeywordText(k)) == k
  {
  }
}
