/** `TokenizerValidator`: the check each variable name found by the plain-text tokenizer must pass
    before it becomes a token. */
module TokenizerValidation {
  import opened Wrappers
  import TextUtil
  import Context

  /** The message of every error the check throws. */
  const VALIDATION_ERROR_MESSAGE: string := "Validation Error"

  /** The `TokenValidationError` a failed check carries as its cause. */
  datatype Cause =
    | UndefinedVariable(position: nat)
    | ForbiddenChars(offender: char, name: string)

  /** `TokenizerParseError(message, cause)`. */
  datatype ParseError = TokenizerParseError(message: string, cause: Cause)

  /** The outcome of `validateVariableMatch`: it returns, or it throws. */
  datatype Check = Passed | Threw(error: ParseError)

  /** The characters of `FORBIDDEN_CHARS`. */
  predicate IsForbidden(c: char) {
    || c == '{' || c == '}' || c == '|' || c == '<' || c == '>' || c == '[' || c == ']'
    || c == '\'' || c == '"' || c == '`' || c == ';' || c == '=' || c == '&' || c == '$' || c == '\\'
  }

  /** `s.match(FORBIDDEN_CHARS)`: the position of the leftmost forbidden character, if any. */
  function FirstForbidden(s: string): (r: Option<nat>)
    ensures r.None? <==> forall k :: 0 <= k < |s| ==> !IsForbidden(s[k])
    ensures r.Some? ==> r.value < |s| && IsForbidden(s[r.value])
    ensures r.Some? ==> forall k :: 0 <= k < r.value ==> !IsForbidden(s[k])
  {
    if s == [] then None
    else if IsForbidden(s[0]) then Some(0)
    else
      match FirstForbidden(s[1..])
      case None => None
      case Some(i) => Some(i + 1)
  }

  /** The cause's message text; a position is written in decimal. */
  function CauseMessage(c: Cause): string {
    match c
    case UndefinedVariable(p) => "Variable is undefined. Check " + Context.IndexKey(p) + " text position"
    case ForbiddenChars(ch, name) => "Forbidden chars " + [ch] + " in " + name
  }

  /** The checks on an already trimmed name: an empty name throws with its match position, and a
      name holding a forbidden character throws naming the leftmost one. */
  function CheckName(openBracketsMatchIndex: nat, name: string): (r: Check)
    ensures r.Passed? <==> name != [] && forall k :: 0 <= k < |name| ==> !IsForbidden(name[k])
    ensures r.Threw? ==> r.error.message == VALIDATION_ERROR_MESSAGE
    ensures name == [] ==> r.error.cause == UndefinedVariable(openBracketsMatchIndex)
    ensures r.Threw? && r.error.cause.ForbiddenChars? ==>
              && r.error.cause.name == name
              && exists i :: 0 <= i < |name| && name[i] == r.error.cause.offender && IsForbidden(name[i])
                             && forall k :: 0 <= k < i ==> !IsForbidden(name[k])
  {
    if name == [] then Threw(TokenizerParseError(VALIDATION_ERROR_MESSAGE, UndefinedVariable(openBracketsMatchIndex)))
    else
      match FirstForbidden(name)
      case Some(i) => Threw(TokenizerParseError(VALIDATION_ERROR_MESSAGE, ForbiddenChars(name[i], name)))
      case None => Passed
  }

  /** `validateVariableMatch`: the checks run on the trimmed name, so it passes exactly when the
      trimmed name is non-empty and free of forbidden characters. */
  function ValidateVariableMatch(openBracketsMatchIndex: nat, varName: string): (r: Check)
    ensures var name := TextUtil.Trim(varName);
            && (r.Passed? <==> name != [] && forall k :: 0 <= k < |name| ==> !IsForbidden(name[k]))
            && (r.Threw? ==> r.error.message == VALIDATION_ERROR_MESSAGE)
            && (name == [] ==> r.error.cause == UndefinedVariable(openBracketsMatchIndex))
            && (r.Threw? && r.error.cause.ForbiddenChars? ==> r.error.cause.name == name)
  {
    CheckName(openBracketsMatchIndex, TextUtil.Trim(varName))
  }

  /** Only the trimmed name is checked: surrounding whitespace changes nothing. */
  lemma ChecksTrimmedName(index: nat, varName: string)
    ensures ValidateVariableMatch(index, varName) == ValidateVariableMatch(index, TextUtil.Trim(varName))
  {
    var name := TextUtil.Trim(varName);
    TextUtil.TrimOfTrimmed(name);
    assert TextUtil.Trim(name) == name;
  }

  /** The match position shows only in the error for an empty name. */
  lemma PositionOnlyForEmpty(i: nat, j: nat, varName: string)
    requires TextUtil.Trim(varName) != []
    ensures ValidateVariableMatch(i, varName) == ValidateVariableMatch(j, varName)
  {
  }
}
