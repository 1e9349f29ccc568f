/**
 * The failures of the template-path parser. Java reports them as a
 * ParseException (from the list splitter), as TemplatePathParsingException
 * (everything else, some of them wrapping a cause) or as the regular
 * expression engine's PatternSyntaxException.
 */
module ParseErrors {

  datatype ParseError =
    | MissingListItem                       // an empty item after a comma
    | ClosingBracketMissing                 // "[" without a trailing "]"
    | ListParseFailed(cause: ParseError)    // the list splitter's failure, wrapped
    | ReservedBrace                         // a path starting with "{"
    | UnexpectedClauseName(name: string)    // "?name(...)" with a name other than "settings"
    | TrailingContent                       // the setting list did not end the path
    | SettingsFailed(cause: ParseError)     // anything going wrong while applying the settings
    | EvaluatorError(message: string)       // the settings evaluator's own failure
    | PatternSyntax(pattern: string, message: string)  // a list item that is not a valid pattern
}
