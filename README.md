# InitParamParser: template path parsing for FreemarkerServlet

This project models the class `freemarker.ext.servlet.InitParamParser` in
Dafny. FreemarkerServlet uses it to turn its `TemplatePath` init-param into a
template loader. A template path is:

- `class://pkg`, `classpath:pkg` or `file://dir`;
- a webapp path;
- with incompatible_improvements 2.3.22 or later, a bracketed,
  comma-separated list `[p1, p2, ...]` of template paths;
- optionally followed by `?settings(name=value, ...)`, whose setting list is
  applied to the loader.

The model has six modules, one per concern of the source class:

- `Wrappers`: `Option` and `Result`.
- `ParseErrors`: the failures the parser reports. Java throws an exception;
  the model returns `Err`.
- `JavaText`: the Java library operations the source relies on. These are
  `String.trim`, `startsWith`/`endsWith`, `indexOf(char, from)`,
  `Character.isWhitespace`, `Character.isJavaIdentifierPart` (below U+00A0
  only) and StringUtil's `split(String, char)`. Strings are sequences of
  Unicode characters, not of UTF-16 code units (see "Left out").
- `PackagePath`: `normalizeToAbsolutePackagePath`. It is the Java `while`
  loop as a Dafny method, proved equal to the function `Normalized`.
- `CommaList`: `parseCommaSeparatedList` and `parseCommaSeparatedPatterns`.
  Both are Java `for` loops modelled as methods. The list method is proved
  equal to the function `ParseList`.
- `SettingsSuffix`: `findTemplatePathSettingAssignmentsStart`, the backward
  scan for a trailing settings clause. The scan's loops are Dafny methods,
  proved equal to the function `Locate`.
- `TemplateLoaders`: `createTemplateLoader` as a pure, mutually recursive
  function. It works in three steps:
  - It cuts off the settings clause.
  - It trims the rest and classifies it by prefix into a `PathSpec`. A list
    is classified item by item into child loaders.
  - It hands a settings clause to a settings evaluator. The evaluator must
    stop exactly at the end of the path.

A `Loader` value stands for the loader Java would build. It holds the
`PathSpec` with its path, plus the start of the setting list applied to it.

The inputs from outside the class become parameters:

- `gate` stands for "incompatible_improvements is at least 2.3.22".
- `configure: Evaluator` stands for `_ObjectBuilderSettingEvaluator.configureBean`.
  It receives the loader description, the template path and the start
  position, and returns the end position or an error message.
- `compile` stands for `Pattern.compile`. It returns a compiled pattern or an
  error message.

## Model

| member | source | states |
|---|---|---|
| PackagePath.NormalizeToAbsolutePackagePath | src/main/java/freemarker/ext/servlet/InitParamParser.java:109-114 | The loop that strips leading '/' and prepends one returns `Normalized(path)`, which is always an absolute package path: it starts with '/' and has no second leading '/'. |
| PackagePath.NormalizedShape | src/main/java/freemarker/ext/servlet/InitParamParser.java:109-114 | The result is absolute, and the input is k slashes followed by the result without its '/'. Only the leading run of slashes changes. |
| PackagePath.NormalizeIdempotent | src/main/java/freemarker/ext/servlet/InitParamParser.java:109-114 | Normalising twice gives the same result as normalising once. |
| PackagePath.NormalizedFixpoint | src/main/java/freemarker/ext/servlet/InitParamParser.java:109-114 | Normalisation leaves a path unchanged exactly when the path is already absolute (both directions). |
| CommaList.ParseCommaSeparatedList | src/main/java/freemarker/ext/servlet/InitParamParser.java:116-128 | The loop over the split pieces returns `ParseList(value)`. That is `MissingListItem` when a piece other than the last trims to empty. Otherwise it is the non-empty trimmed pieces in order. |
| CommaList.ItemsSelection | src/main/java/freemarker/ext/servlet/InitParamParser.java:118-126 | The items are a selection of the pieces: there are increasing indices idx with item k = trim(piece idx[k]) ≠ "". Every piece that does not trim to empty is selected. |
| CommaList.ListItemsTrimmed | src/main/java/freemarker/ext/servlet/InitParamParser.java:120-122 | Every returned item is non-empty and trimming leaves it unchanged. |
| CommaList.TrailingCommaDropped | src/main/java/freemarker/ext/servlet/InitParamParser.java:121-125 | A comma after a non-empty last item leaves the result unchanged. |
| CommaList.EmptyInteriorItemFails | src/main/java/freemarker/ext/servlet/InitParamParser.java:121-125 | `a,w,b` with a blank w between two commas fails with `MissingListItem`, whatever a and b are. |
| CommaList.ListRoundTrip | src/main/java/freemarker/ext/servlet/InitParamParser.java:116-128 | Joining non-empty, trimmed, comma-free items with commas and parsing the result gives the items back. |
| CommaList.ParseCommaSeparatedPatterns | src/main/java/freemarker/ext/servlet/InitParamParser.java:130-137 | The list error is passed through. When every item compiles, the result holds one compiled pattern per item, in order. Otherwise the error names the first item that does not compile, with the compiler's message. |
| JavaText.JoinSplit | src/main/java/freemarker/ext/servlet/InitParamParser.java:118 | Gluing the split pieces back with the separator restores the string. The split loses nothing. |
| JavaText.SplitPieces | src/main/java/freemarker/ext/servlet/InitParamParser.java:118 | No piece contains the separator, and no piece is longer than the string. |
| JavaText.SplitJoin | src/main/java/freemarker/ext/servlet/InitParamParser.java:118 | Splitting the join of separator-free pieces gives the pieces back. |
| JavaText.SplitConcat | src/main/java/freemarker/ext/servlet/InitParamParser.java:118 | The pieces of a + sep + b are the pieces of a followed by the pieces of b. |
| JavaText.TrimFixpoint | src/main/java/freemarker/ext/servlet/InitParamParser.java:120 | `trim` leaves a string unchanged exactly when the string has no blank at either end. |
| JavaText.TrimEmpty | src/main/java/freemarker/ext/servlet/InitParamParser.java:120-121 | A string trims to "" exactly when all its characters are at most U+0020. |
| JavaText.TrimSlice | src/main/java/freemarker/ext/servlet/InitParamParser.java:120 | The trimmed string is a slice of the input, and only blanks lie around it. |
| SettingsSuffix.FindTemplatePathSettingAssignmentsStart | src/main/java/freemarker/ext/servlet/InitParamParser.java:142-216 | The scan's result equals `Locate(s)`. The whitespace, parenthesis and identifier loops are proved against their specification functions. |
| SettingsSuffix.SkipParenthesized | src/main/java/freemarker/ext/servlet/InitParamParser.java:143-181 | The first part of the scan returns `ClauseOpen(s)`: the position before the matching '(', or none. It covers the trailing whitespace, the ')' test and the depth and quote-mode loop. |
| SettingsSuffix.ReadClauseHead | src/main/java/freemarker/ext/servlet/InitParamParser.java:183-215 | The second part of the scan returns `ClauseHead(s, beforeOpen)`. It skips whitespace, the identifier and whitespace, then tests for '?' and checks the name. |
| SettingsSuffix.StepOverWhitespace | src/main/java/freemarker/ext/servlet/InitParamParser.java:146-148 | The whitespace-skipping loop stops at `SkipWhitespaceBack(s, from)`. The same loop appears at lines 184-186 and 202-204. |
| SettingsSuffix.StepOverIdentifier | src/main/java/freemarker/ext/servlet/InitParamParser.java:191-193 | The identifier-skipping loop stops at `SkipIdentifierBack(s, from)`. |
| SettingsSuffix.TrailingIdeographicSpaceSkipped | src/main/java/freemarker/ext/servlet/InitParamParser.java:143-148 | A clause followed by an ideographic space (U+3000), which `Character.isWhitespace` accepts, is still found: `x?settings(a=1)` plus U+3000 gives 1. |
| SettingsSuffix.WhitespaceOnlyHasNoClause | src/main/java/freemarker/ext/servlet/InitParamParser.java:143-151 | A string made only of whitespace, the empty string included, gives -1. |
| SettingsSuffix.NoClauseUnlessClosingParen | src/main/java/freemarker/ext/servlet/InitParamParser.java:143-151 | When the last character that is not whitespace is not ')', the result is -1. |
| SettingsSuffix.UnmatchedParenHasNoClause | src/main/java/freemarker/ext/servlet/InitParamParser.java:155-181 | A ')' with no '(' before it runs the scan off the start of the string. The result is -1, not an error. |
| SettingsSuffix.MatchOpenParenFound | src/main/java/freemarker/ext/servlet/InitParamParser.java:155-181 | A region the parenthesis scan finds starts with '(' just after the returned position. |
| SettingsSuffix.ClauseRecognised | src/main/java/freemarker/ext/servlet/InitParamParser.java:142-216 | Take a prefix, '?', whitespace, an identifier, whitespace, '(' and a well-formed argument list. The argument list may hold quoted literals with escaped quotes and nested parentheses. Then come ')' and whitespace. With the name "settings" the result is the index of the '?'. Another name is `UnexpectedClauseName(name)`, and an empty name gives -1. |
| SettingsSuffix.LocatedQuestion | src/main/java/freemarker/ext/servlet/InitParamParser.java:206-215 | Every successful result is -1 or a p with 0 ≤ p < \|s\| and s[p] = '?'. |
| SettingsSuffix.LocatedClauseShape | src/main/java/freemarker/ext/servlet/InitParamParser.java:142-216 | Whenever the result is not -1, the string really has the clause shape: '?', whitespace, a non-empty identifier, whitespace, '(' and, after the region, ')' followed only by whitespace. The result is the '?' for "settings" and an error naming the identifier otherwise. The '(' is the first one after the '?'. |
| SettingsSuffix.QuotedParenthesisIsSkipped | src/main/java/freemarker/ext/servlet/InitParamParser.java:155-181 | In `foo?settings(x=")")` the ')' inside the string literal does not end the region, and the result is 3. |
| SettingsSuffix.UnknownClauseNameIsRefused | src/main/java/freemarker/ext/servlet/InitParamParser.java:209-213 | `foo?bogus(a=1)` is refused with an error naming "bogus". |
| TemplateLoaders.CreateTemplateLoader | src/main/java/freemarker/ext/servlet/InitParamParser.java:38-107 | createTemplateLoader: locate the clause, trim the rest, classify it, then apply a settings clause. Its properties are the lemmas below. |
| TemplateLoaders.CreateAllLoaders | src/main/java/freemarker/ext/servlet/InitParamParser.java:79-84 | The list of child loaders is built exactly when every item gives a loader. It then holds one loader per item, in item order. |
| TemplateLoaders.CreateAllFirstError | src/main/java/freemarker/ext/servlet/InitParamParser.java:79-84 | When some item fails, the first failing item's error is the result. |
| TemplateLoaders.MultiChildren | src/main/java/freemarker/ext/servlet/InitParamParser.java:66-84 | With the gate on, a "[...]" path whose inside is a valid list yields a Multi with one child per list item, in order. |
| TemplateLoaders.BadListFails | src/main/java/freemarker/ext/servlet/InitParamParser.java:72-78 | A bracketed path whose inside is not a valid comma list fails with the list error wrapped in `ListParseFailed`. |
| TemplateLoaders.ClassifyOutcome | src/main/java/freemarker/ext/servlet/InitParamParser.java:46-90 | The dispatch fails only with the gate on and a path starting with "[" or "{". A Multi comes only from "[...]" with the gate on. "{" gives `ReservedBrace` and "[" without "]" gives `ClosingBracketMissing`. A path no prefix claims becomes a webapp loader holding that path. |
| TemplateLoaders.ClassFormsNormalised | src/main/java/freemarker/ext/servlet/InitParamParser.java:46-62 | `class://` and `classpath:` keep the normalised rest of the path. That rest is an absolute package path, and it is the original rest with its leading slashes collapsed into one. |
| TemplateLoaders.FileRendered | src/main/java/freemarker/ext/servlet/InitParamParser.java:63-65 | `file://` keeps the rest of the path as it is. |
| TemplateLoaders.CreatedPathsAbsolute | src/main/java/freemarker/ext/servlet/InitParamParser.java:46-84 | Every class and classpath loader anywhere in a created loader tree has an absolute package path. |
| TemplateLoaders.ErrorsInOrder | src/main/java/freemarker/ext/servlet/InitParamParser.java:41-92 | A locator error is reported before anything is classified. A classification error is reported before the evaluator runs. |
| TemplateLoaders.LoaderWithoutSettings | src/main/java/freemarker/ext/servlet/InitParamParser.java:41-90 | A loader without settings comes from a path the locator finds no clause in. The loader is the classification of the whole trimmed path. |
| TemplateLoaders.LoaderWithSettings | src/main/java/freemarker/ext/servlet/InitParamParser.java:92-104 | A loader with settings comes from a path that ends in `?settings(...)` and whitespace. The part before the '?' is classified once trimmed. The evaluator starts just after the first '(' after the '?' and stops exactly at the end of the path. |
| TemplateLoaders.AppliedSettings | src/main/java/freemarker/ext/servlet/InitParamParser.java:92-104 | A settings clause succeeds only when the evaluator returns the path's length. The loader then records the start of the setting list. |
| TemplateLoaders.RoundTrip | src/main/java/freemarker/ext/servlet/InitParamParser.java:38-107 | Print a printable loader back as a template path and parse it: the result is the same loader. The printed forms are prefix plus path, a webapp path, or a bracketed comma list of printed children. A printable path ends neither in ')' nor in a character Java's `isWhitespace` accepts, so the settings scan finds no clause in it. |
| TemplateLoaders.ClassPathsAreNormalised | src/main/java/freemarker/ext/servlet/InitParamParser.java:46-62 | `class://a/b` gives the class loader for "/a/b", and `classpath://a` gives the classpath loader for "/a". |
| TemplateLoaders.ListOfTwo | src/main/java/freemarker/ext/servlet/InitParamParser.java:66-84 | With the gate on, `[file:///x,classpath:/y]` gives a Multi of a file loader for "/x" and a classpath loader for "/y". |
| TemplateLoaders.GatedForms | src/main/java/freemarker/ext/servlet/InitParamParser.java:66-90 | With the gate on, `[file:///x` is `ClosingBracketMissing` and `{x}` is `ReservedBrace`. With it off, `[file:///x` is a webapp path. |
| TemplateLoaders.SettingsExample | src/main/java/freemarker/ext/servlet/InitParamParser.java:92-104 | `foo?settings(a=1)` gives the webapp loader "foo", with its setting list starting at 13, when the evaluator reaches the end. An evaluator that stops early gives `SettingsFailed(TrailingContent)`. An evaluator that fails gives `SettingsFailed(EvaluatorError(message))`. |

## Left out

- The loader objects themselves are left out: ClassTemplateLoader, FileTemplateLoader, WebappTemplateLoader and MultiTemplateLoader. So are the servlet class, the ServletContext and the `java.io.File` they are built from. A `Loader` value records which of them would be built and with which path.
- Building a loader is assumed never to fail. In Java, `new FileTemplateLoader(new File(...))` at line 65 can throw the `IOException` declared at line 40. That exception would end the parse at once, also inside the list loop at line 82, before later items and before any settings clause is applied. The model's `File` branch always succeeds.
- The thread context class loader lookup and the `LOG.warn` fallback are left out. They only choose a class loader and produce I/O; the classpath loader is modelled by its path alone.
- `_ObjectBuilderSettingEvaluator.configureBean` becomes the `Evaluator` parameter. The model does not show it changing the loader's properties. It records where the setting list starts, and the evaluator's result decides the outcome.
- `Pattern.compile` becomes the `compile` parameter of `ParseCommaSeparatedPatterns`. The regular expression syntax is not modelled.
- `Configuration.getIncompatibleImprovements()` becomes the `gate` boolean parameter.
- JavaText.IsIdentifierPart: covers only the characters below U+00A0, that is the ASCII letters and digits, '_', '$' and the identifier-ignorable controls. Java also accepts non-ASCII letters, digits, currency symbols and marks; listing those needs the Unicode category tables, which are not written out here. A clause name holding such a character is cut short at it by the model. For example, `x?éa(b)` gives -1 in the model (`SettingsSuffix.NonAsciiNameCutShort`), where Java reports the unexpected name "éa".
- JavaText.IsWhitespace: follows `Character.isWhitespace` as of Unicode 6.3 (Java 9 and later). On Java 8, U+180E also counts as whitespace; the model does not count it.
- Positions and lengths count Unicode characters, because a Dafny `string` is a sequence of them. Java counts UTF-16 code units. For every character above U+FFFF before a position, the model's position is one smaller than Java's. This affects the index of the '?', the position the evaluator starts at and the length the evaluator must reach. A string holding an unpaired surrogate cannot be written in the model at all. Apart from the positions handed to the evaluator, which loader is built, or which error is reported, does not depend on this counting: no character above U+FFFF and no surrogate is whitespace, blank or part of an identifier in either counting.
- The text of the exception messages is left out. Each failure is a `ParseError` constructor carrying the parts its message is built from, such as the unexpected name or the cause.
- CreateAll: the Java loop stops at the first failing item. The model is `Collect` over the results of all items, which gives that same first error and the same loaders. Since the loaders are values, evaluation order is not modelled.
- SettingsSuffix.ClauseRecognised: states the clause shape for argument lists built from the `ArgToken` grammar: plain text, quoted literals with escaped quotes, and nested parenthesised groups. It does not cover every text the scan accepts, such as unbalanced quotes.

Two edge cases, as the code handles them:

- `parseCommaSeparatedList("")`, like a blank string, returns an empty list. The single empty piece is also the last piece, so it is tolerated. An empty sole item is therefore not an error.
- The "template path should end after the setting list" failure is raised inside the `try` block that wraps the evaluator. The `catch` therefore wraps it too, so the model reports `SettingsFailed(TrailingContent)`.
