/**
 * The decision logic of createTemplateLoader: the settings clause is located
 * and cut off, the rest is trimmed and classified by its prefix, a "[...]"
 * list is classified item by item, and a settings clause is handed to the
 * settings evaluator, which must consume the template path to its end.
 *
 * The loaders themselves are described by values: a PathSpec says which kind
 * of loader the path denotes and with which path, and a Loader adds the
 * settings clause that was applied to it. The settings evaluator is a
 * parameter: given the loader it configures, the whole template path and the
 * position just after the clause's '(', it returns the position where the
 * setting list ended or an error message.
 */
module TemplateLoaders {
  import opened Wrappers
  import opened JavaText
  import opened ParseErrors
  import opened PackagePath
  import opened CommaList
  import opened SettingsSuffix

  const ClassPrefix: string := "class://"
  const ClassPathPrefix: string := "classpath:"
  const FilePrefix: string := "file://"

  datatype PathSpec =
    | Class(packagePath: string)      // ClassTemplateLoader relative to the servlet class
    | ClassPath(packagePath: string)  // ClassTemplateLoader over the context class loader
    | File(filePath: string)          // FileTemplateLoader
    | Webapp(path: string)            // WebappTemplateLoader
    | Multi(children: seq<Loader>)    // MultiTemplateLoader, in list order

  /** Where the setting assignments that configured a loader start. */
  datatype SettingsClause = SettingsClause(argsStart: nat)

  datatype Loader = Loader(spec: PathSpec, settings: Option<SettingsClause>)

  /** The settings evaluator (configureBean): applies the setting list found
      in the template path at the given position to the loader and returns
      the position it stopped at. */
  type Evaluator = (PathSpec, string, nat) -> Result<int, string>

  /** createTemplateLoader. */
  function CreateTemplateLoader(templatePath: string, gate: bool, configure: Evaluator): Result<Loader, ParseError>
    decreases |templatePath|, 2
  {
    LocatedQuestion(templatePath);
    match Locate(templatePath)
    case Err(e) => Err(e)
    case Ok(start) =>
      var pure := Trim(if start == -1 then templatePath else templatePath[..start]);
      match Classify(pure, gate, configure)
      case Err(e) => Err(e)
      case Ok(spec) =>
        if start == -1 then Ok(Loader(spec, None))
        else ApplySettings(spec, templatePath, start, configure)
  }

  /** The settings clause whose '?' is at start, applied to the loader for
      spec: the evaluator starts just after the first '(' after the '?' and
      must stop at the end of the template path. */
  function ApplySettings(spec: PathSpec, templatePath: string, start: nat, configure: Evaluator): Result<Loader, ParseError> {
    var argsStart := IndexOf(templatePath, '(', start) + 1;
    match configure(spec, templatePath, argsStart)
    case Err(message) => Err(SettingsFailed(EvaluatorError(message)))
    case Ok(nextPos) =>
      if nextPos != |templatePath| then Err(SettingsFailed(TrailingContent))
      else Ok(Loader(spec, Some(SettingsClause(argsStart))))
  }

  /** The prefix dispatch on the trimmed path without its settings clause.
      The "[" and "{" forms are recognised only when gate holds, that is
      when incompatible_improvements is at least 2.3.22. */
  function Classify(pure: string, gate: bool, configure: Evaluator): Result<PathSpec, ParseError>
    decreases |pure|, 1
  {
    if StartsWith(pure, ClassPrefix) then
      Ok(Class(Normalized(pure[|ClassPrefix|..])))
    else if StartsWith(pure, ClassPathPrefix) then
      Ok(ClassPath(Normalized(pure[|ClassPathPrefix|..])))
    else if StartsWith(pure, FilePrefix) then
      Ok(File(pure[|FilePrefix|..]))
    else if StartsWith(pure, "[") && gate then
      if !EndsWith(pure, "]") then Err(ClosingBracketMissing)
      else
        assert pure[0] == '[' && pure[|pure| - 1] == ']';
        var inner := pure[1..|pure| - 1];
        match ParseList(inner)
        case Err(e) => Err(ListParseFailed(e))
        case Ok(items) =>
          ParsedItemsFit(inner);
          var children :- CreateAll(items, |pure|, gate, configure);
          Ok(Multi(children))
    else if StartsWith(pure, "{") && gate then
      Err(ReservedBrace)
    else
      Ok(Webapp(pure))
  }

  /** One loader per list item, left to right; the first failure is the result. */
  function CreateAll(items: seq<string>, bound: nat, gate: bool, configure: Evaluator): Result<seq<Loader>, ParseError>
    requires forall i :: 0 <= i < |items| ==> |items[i]| < bound
    decreases bound, 0
  {
    Collect(seq(|items|, i requires 0 <= i < |items| => CreateTemplateLoader(items[i], gate, configure)))
  }

  /** All the values, or the first error. */
  function Collect<T, E>(rs: seq<Result<T, E>>): Result<seq<T>, E> {
    if rs == [] then Ok([])
    else
      var first :- rs[0];
      var rest :- Collect(rs[1..]);
      Ok([first] + rest)
  }

  /** No list item is longer than the text it was split from. */
  lemma ParsedItemsFit(value: string)
    requires ParseList(value).Ok?
    ensures forall i :: 0 <= i < |ParseList(value).value| ==> |ParseList(value).value[i]| <= |value|
  {
    var pieces := Split(value, ',');
    var idx := ItemsSelection(pieces);
    SplitPieces(value, ',');
  }

  // ---------------------------------------------------------------------
  // The list of loaders
  // ---------------------------------------------------------------------

  /** Collecting succeeds exactly when every result is a value, and then
      holds the values in order. */
  lemma {:induction false} CollectValues<T, E>(rs: seq<Result<T, E>>)
    ensures Collect(rs).Ok? <==> forall i :: 0 <= i < |rs| ==> rs[i].Ok?
    ensures Collect(rs).Ok? ==> |Collect(rs).value| == |rs| && forall i :: 0 <= i < |rs| ==> rs[i] == Ok(Collect(rs).value[i])
  {
    if rs != [] {
      CollectValues(rs[1..]);
      if forall i :: 0 <= i < |rs| ==> rs[i].Ok? {
        forall i | 0 < i < |rs| ensures rs[1..][i - 1] == rs[i] {
        }
      }
      if Collect(rs).Ok? {
        var all, rest := Collect(rs).value, Collect(rs[1..]).value;
        forall i | 0 <= i < |rs| ensures rs[i] == Ok(all[i]) {
          if i > 0 {
            assert rs[1..][i - 1] == rs[i] && all[i] == rest[i - 1];
          }
        }
      } else if rs[0].Ok? {
        var i :| 0 <= i < |rs[1..]| && rs[1..][i].Err?;
        assert rs[i + 1].Err?;
      }
    }
  }

  /** When some result is an error, the first error is the result. */
  lemma {:induction false} CollectFirstError<T, E>(rs: seq<Result<T, E>>, i: nat)
    requires i < |rs| && rs[i].Err?
    requires forall j :: 0 <= j < i ==> rs[j].Ok?
    ensures Collect(rs) == Err(rs[i].error)
    decreases i
  {
    if i > 0 {
      assert rs[1..][i - 1] == rs[i];
      forall j | 0 <= j < i - 1 ensures rs[1..][j].Ok? {
        assert rs[1..][j] == rs[j + 1];
      }
      CollectFirstError(rs[1..], i - 1);
    }
  }

  /** When every item gives a loader, the list holds those loaders in item order. */
  lemma CreateAllLoaders(items: seq<string>, bound: nat, gate: bool, configure: Evaluator)
    requires forall i :: 0 <= i < |items| ==> |items[i]| < bound
    ensures CreateAll(items, bound, gate, configure).Ok? <==>
      forall i :: 0 <= i < |items| ==> CreateTemplateLoader(items[i], gate, configure).Ok?
    ensures CreateAll(items, bound, gate, configure).Ok? ==>
      |CreateAll(items, bound, gate, configure).value| == |items| &&
      forall i :: 0 <= i < |items| ==>
        CreateTemplateLoader(items[i], gate, configure) == Ok(CreateAll(items, bound, gate, configure).value[i])
  {
    var rs := seq(|items|, i requires 0 <= i < |items| => CreateTemplateLoader(items[i], gate, configure));
    assert CreateAll(items, bound, gate, configure) == Collect(rs);
    CollectValues(rs);
    assert forall i :: 0 <= i < |items| ==> rs[i] == CreateTemplateLoader(items[i], gate, configure);
  }

  /** When some item fails, the first item that fails decides the error. */
  lemma CreateAllFirstError(items: seq<string>, bound: nat, gate: bool, configure: Evaluator, i: nat)
    requires forall k :: 0 <= k < |items| ==> |items[k]| < bound
    requires i < |items| && CreateTemplateLoader(items[i], gate, configure).Err?
    requires forall j :: 0 <= j < i ==> CreateTemplateLoader(items[j], gate, configure).Ok?
    ensures CreateAll(items, bound, gate, configure) == Err(CreateTemplateLoader(items[i], gate, configure).error)
  {
    CollectFirstError(seq(|items|, i requires 0 <= i < |items| => CreateTemplateLoader(items[i], gate, configure)), i);
  }

  /** A "[...]" list yields one child per list item, in order, when every
      item gives a loader. */
  lemma MultiChildren(pure: string, gate: bool, configure: Evaluator)
    requires gate && |pure| >= 2 && pure[0] == '[' && pure[|pure| - 1] == ']'
    requires ParseList(pure[1..|pure| - 1]).Ok?
    requires var items := ParseList(pure[1..|pure| - 1]).value;
      forall i :: 0 <= i < |items| ==> CreateTemplateLoader(items[i], gate, configure).Ok?
    ensures Classify(pure, gate, configure).Ok?
    ensures var items := ParseList(pure[1..|pure| - 1]).value;
      var spec := Classify(pure, gate, configure).value;
      spec.Multi? && |spec.children| == |items| &&
      forall i :: 0 <= i < |items| ==> CreateTemplateLoader(items[i], gate, configure) == Ok(spec.children[i])
  {
    var inner := pure[1..|pure| - 1];
    var items := ParseList(inner).value;
    BracketForm(pure);
    ParsedItemsFit(inner);
    CreateAllLoaders(items, |pure|, gate, configure);
    assert Classify(pure, gate, configure) == Ok(Multi(CreateAll(items, |pure|, gate, configure).value));
  }

  /** A path between brackets takes the list branch of the dispatch. */
  lemma BracketForm(pure: string)
    requires |pure| >= 2 && pure[0] == '[' && pure[|pure| - 1] == ']'
    ensures !StartsWith(pure, ClassPrefix) && !StartsWith(pure, ClassPathPrefix) && !StartsWith(pure, FilePrefix)
    ensures StartsWith(pure, "[") && EndsWith(pure, "]") && !StartsWith(pure, "{")
  {
    assert ClassPrefix[0] == 'c' && ClassPathPrefix[0] == 'c' && FilePrefix[0] == 'f';
    assert pure[..1] == "[";
    assert pure[|pure| - 1..] == "]";
  }

  // ---------------------------------------------------------------------
  // Outcomes of the prefix dispatch
  // ---------------------------------------------------------------------

  /** Only the two gated forms fail, a list only comes from "[...]", and
      "{" and "[" without "]" fail with their own errors. */
  lemma ClassifyOutcome(pure: string, gate: bool, configure: Evaluator)
    ensures Classify(pure, gate, configure).Err? ==> gate && (StartsWith(pure, "[") || StartsWith(pure, "{"))
    ensures Classify(pure, gate, configure).Ok? && Classify(pure, gate, configure).value.Multi? ==>
      gate && StartsWith(pure, "[") && EndsWith(pure, "]")
    ensures gate && StartsWith(pure, "{") ==> Classify(pure, gate, configure) == Err(ReservedBrace)
    ensures gate && StartsWith(pure, "[") && !EndsWith(pure, "]") ==> Classify(pure, gate, configure) == Err(ClosingBracketMissing)
    ensures !StartsWith(pure, ClassPrefix) && !StartsWith(pure, ClassPathPrefix) && !StartsWith(pure, FilePrefix)
         && !(gate && (StartsWith(pure, "[") || StartsWith(pure, "{")))
         ==> Classify(pure, gate, configure) == Ok(Webapp(pure))
  {
    if StartsWith(pure, "[") || StartsWith(pure, "{") {
      assert pure[0] == '[' || pure[0] == '{';
      assert !StartsWith(pure, ClassPrefix) && !StartsWith(pure, ClassPathPrefix) && !StartsWith(pure, FilePrefix) by {
        assert ClassPrefix[0] == 'c' && ClassPathPrefix[0] == 'c' && FilePrefix[0] == 'f';
      }
    }
  }

  /** A "[...]" list whose inside is not a valid comma list fails with the
      list parser's error wrapped. */
  lemma BadListFails(pure: string, gate: bool, configure: Evaluator)
    requires gate && |pure| >= 2 && pure[0] == '[' && pure[|pure| - 1] == ']'
    requires ParseList(pure[1..|pure| - 1]).Err?
    ensures Classify(pure, gate, configure) == Err(ListParseFailed(ParseList(pure[1..|pure| - 1]).error))
  {
    BracketForm(pure);
  }

  /** The class forms hold the normalised rest of the path: an absolute
      package path, which is the rest with its leading slashes collapsed
      into one '/'. */
  lemma ClassFormsNormalised(rest: string, gate: bool, configure: Evaluator) returns (slashes: nat)
    ensures Classify(ClassPrefix + rest, gate, configure) == Ok(Class(Normalized(rest)))
    ensures Classify(ClassPathPrefix + rest, gate, configure) == Ok(ClassPath(Normalized(rest)))
    ensures IsAbsolutePackagePath(Normalized(rest)) && rest == Slashes(slashes) + Normalized(rest)[1..]
  {
    ClassForm(rest, gate, configure);
    ClassPathForm(rest, gate, configure);
    slashes := NormalizedShape(rest);
  }

  /** Every class and classpath loader anywhere in the tree has an absolute
      package path. */
  predicate ClassPathsAbsolute(l: Loader)
    decreases l
  {
    match l.spec
    case Class(p) => IsAbsolutePackagePath(p)
    case ClassPath(p) => IsAbsolutePackagePath(p)
    case File(_) => true
    case Webapp(_) => true
    case Multi(cs) => forall i :: 0 <= i < |cs| ==> ClassPathsAbsolute(cs[i])
  }

  lemma {:induction false} CreatedPathsAbsolute(templatePath: string, gate: bool, configure: Evaluator)
    requires CreateTemplateLoader(templatePath, gate, configure).Ok?
    ensures ClassPathsAbsolute(CreateTemplateLoader(templatePath, gate, configure).value)
    decreases |templatePath|, 2
  {
    LocatedQuestion(templatePath);
    var start := Locate(templatePath).value;
    var pure := Trim(if start == -1 then templatePath else templatePath[..start]);
    ClassifiedPathsAbsolute(pure, gate, configure);
  }

  lemma {:induction false} ClassifiedPathsAbsolute(pure: string, gate: bool, configure: Evaluator)
    requires Classify(pure, gate, configure).Ok?
    ensures ClassPathsAbsolute(Loader(Classify(pure, gate, configure).value, None))
    decreases |pure|, 1
  {
    if StartsWith(pure, ClassPrefix) {
      var _ := NormalizedShape(pure[|ClassPrefix|..]);
    } else if StartsWith(pure, ClassPathPrefix) {
      var _ := NormalizedShape(pure[|ClassPathPrefix|..]);
    } else if StartsWith(pure, FilePrefix) {
    } else if StartsWith(pure, "[") && gate {
      assert pure[0] == '[' && pure[|pure| - 1] == ']';
      var inner := pure[1..|pure| - 1];
      ParsedItemsFit(inner);
      CreatedAllPathsAbsolute(ParseList(inner).value, |pure|, gate, configure);
    }
  }

  lemma {:induction false} CreatedAllPathsAbsolute(items: seq<string>, bound: nat, gate: bool, configure: Evaluator)
    requires forall i :: 0 <= i < |items| ==> |items[i]| < bound
    requires CreateAll(items, bound, gate, configure).Ok?
    ensures var cs := CreateAll(items, bound, gate, configure).value;
      forall i :: 0 <= i < |cs| ==> ClassPathsAbsolute(cs[i])
    decreases bound, 0
  {
    CreateAllLoaders(items, bound, gate, configure);
    var cs := CreateAll(items, bound, gate, configure).value;
    forall i | 0 <= i < |cs| ensures ClassPathsAbsolute(cs[i]) {
      CreatedPathsAbsolute(items[i], gate, configure);
    }
  }

  // ---------------------------------------------------------------------
  // The settings clause
  // ---------------------------------------------------------------------

  /** A refused clause name is reported before anything is classified, and a
      classification error before the evaluator runs. */
  lemma ErrorsInOrder(templatePath: string, gate: bool, configure: Evaluator)
    ensures Locate(templatePath).Err? ==> CreateTemplateLoader(templatePath, gate, configure) == Err(Locate(templatePath).error)
    ensures Locate(templatePath) == Ok(-1) && Classify(Trim(templatePath), gate, configure).Err? ==>
      CreateTemplateLoader(templatePath, gate, configure) == Err(Classify(Trim(templatePath), gate, configure).error)
    ensures forall q :: 0 <= q < |templatePath| && Locate(templatePath) == Ok(q) && Classify(Trim(templatePath[..q]), gate, configure).Err? ==>
      CreateTemplateLoader(templatePath, gate, configure) == Err(Classify(Trim(templatePath[..q]), gate, configure).error)
  {
    if q :| 0 <= q < |templatePath| && Locate(templatePath) == Ok(q) {
      assert (if q == -1 then templatePath else templatePath[..q]) == templatePath[..q];
    }
  }

  /** A loader without settings comes from a path without a settings
      clause, classified as a whole once trimmed. */
  lemma LoaderWithoutSettings(templatePath: string, gate: bool, configure: Evaluator, l: Loader)
    requires CreateTemplateLoader(templatePath, gate, configure) == Ok(l) && l.settings.None?
    ensures Locate(templatePath) == Ok(-1)
    ensures Classify(Trim(templatePath), gate, configure) == Ok(l.spec)
  {
    LocatedQuestion(templatePath);
    var start := Locate(templatePath).value;
    var spec := Classify(Trim(if start == -1 then templatePath else templatePath[..start]), gate, configure).value;
    if start != -1 {
      SettingsRecorded(spec, templatePath, start, configure);
    }
  }

  /** A settings clause that is applied successfully is recorded on the loader. */
  lemma SettingsRecorded(spec: PathSpec, templatePath: string, start: nat, configure: Evaluator)
    ensures ApplySettings(spec, templatePath, start, configure).Ok? ==>
      ApplySettings(spec, templatePath, start, configure).value.settings.Some?
  {
  }

  /** A "?settings(...)" clause on positions: the '?' at question, the name
      at nameStart, the '(' at open and the matching ')' at close, with only
      whitespace after it. */
  predicate SettingsClauseParts(s: string, question: nat, nameStart: nat, open: nat, close: nat) {
    && ClauseName(s, question, nameStart, SettingsName, open)
    && open < close < |s| && s[open] == '(' && s[close] == ')'
    && (forall k :: close < k < |s| ==> IsWhitespace(s[k]))
  }

  /** A loader with settings comes from a path ending in
      "?settings(...)" and optional whitespace: the part before the '?' is
      classified once trimmed, and the evaluator, started just after the
      clause's '(', stopped exactly at the end of the path. */
  lemma LoaderWithSettings(templatePath: string, gate: bool, configure: Evaluator, l: Loader)
    returns (question: nat, nameStart: nat, open: nat, close: nat)
    requires CreateTemplateLoader(templatePath, gate, configure) == Ok(l) && l.settings.Some?
    ensures Locate(templatePath) == Ok(question)
    ensures SettingsClauseParts(templatePath, question, nameStart, open, close)
    ensures l.settings.value.argsStart == open + 1
    ensures Classify(Trim(templatePath[..question]), gate, configure) == Ok(l.spec)
    ensures configure(l.spec, templatePath, open + 1) == Ok(|templatePath|)
  {
    question := SettingsLocated(templatePath, gate, configure, l);
    nameStart, open, close := SettingsClauseAt(templatePath, question);
    SettingsApplied(templatePath, gate, configure, l, question);
    AppliedSettings(l.spec, templatePath, question, configure, l, open);
  }

  /** Where the parts of a located settings clause are. */
  lemma SettingsClauseAt(s: string, question: nat) returns (nameStart: nat, open: nat, close: nat)
    requires Locate(s) == Ok(question)
    ensures SettingsClauseParts(s, question, nameStart, open, close)
    ensures IndexOf(s, '(', question) == open
  {
    var q, name;
    q, nameStart, name, open, close := LocatedClauseShape(s);
    assert name == SettingsName;
  }

  /** The clause CreateTemplateLoader cut off, and how it classified the rest. */
  lemma SettingsLocated(templatePath: string, gate: bool, configure: Evaluator, l: Loader) returns (start: nat)
    requires CreateTemplateLoader(templatePath, gate, configure) == Ok(l) && l.settings.Some?
    ensures start < |templatePath| && Locate(templatePath) == Ok(start)
    ensures Classify(Trim(templatePath[..start]), gate, configure) == Ok(l.spec)
  {
    LocatedQuestion(templatePath);
    var r := Locate(templatePath).value;
    assert r != -1;
    start := r;
    var head := if start == -1 then templatePath else templatePath[..start];
    assert Classify(Trim(head), gate, configure) == Ok(l.spec);
    assert head == templatePath[..start];
  }

  /** How CreateTemplateLoader ran the evaluator on the clause it located. */
  lemma SettingsApplied(templatePath: string, gate: bool, configure: Evaluator, l: Loader, start: nat)
    requires CreateTemplateLoader(templatePath, gate, configure) == Ok(l) && l.settings.Some?
    requires Locate(templatePath) == Ok(start)
    ensures ApplySettings(l.spec, templatePath, start, configure) == Ok(l)
  {
  }

  /** A settings clause the evaluator accepted: it stopped at the end of the
      path, and the loader records where its setting list starts. */
  lemma AppliedSettings(spec: PathSpec, templatePath: string, start: nat, configure: Evaluator, l: Loader, open: int)
    requires ApplySettings(spec, templatePath, start, configure) == Ok(l)
    requires IndexOf(templatePath, '(', start) == open
    ensures l.spec == spec && l.settings == Some(SettingsClause(open + 1))
    ensures configure(spec, templatePath, open + 1) == Ok(|templatePath|)
  {
  }

  // ---------------------------------------------------------------------
  // Printing a loader back as a template path
  // ---------------------------------------------------------------------

  /** The template path that denotes a loader: a prefix before its path, its
      webapp path as it is, or its children's paths between brackets,
      separated by commas. Settings are not printed. */
  function Render(l: Loader): string
    decreases l
  {
    match l.spec
    case Class(p) => ClassPrefix + p
    case ClassPath(p) => ClassPathPrefix + p
    case File(f) => FilePrefix + f
    case Webapp(p) => p
    case Multi(cs) => "[" + Join(RenderAll(cs), ',') + "]"
  }

  function RenderAll(cs: seq<Loader>): (r: seq<string>)
    ensures |r| == |cs|
    decreases cs
  {
    if cs == [] then [] else [Render(cs[0])] + RenderAll(cs[1..])
  }

  lemma {:induction false} RenderAllAt(cs: seq<Loader>)
    ensures forall i :: 0 <= i < |cs| ==> RenderAll(cs)[i] == Render(cs[i])
  {
    if cs != [] {
      RenderAllAt(cs[1..]);
      forall i | 0 < i < |cs| ensures RenderAll(cs)[i] == Render(cs[i]) {
        assert cs[1..][i - 1] == cs[i];
      }
    }
  }

  /** Trimming leaves the path alone and it ends neither in ')' nor in a
      character the settings scan skips as whitespace. */
  predicate Settled(s: string) {
    IsTrimmed(s) && (s != [] ==> s[|s| - 1] != ')' && !IsWhitespace(s[|s| - 1]))
  }

  /** The loaders whose printed path classifies back to them: no settings, a
      printed path that has no settings clause and nothing to trim, class
      paths already normalised, a webapp path that no prefix claims, and
      list children whose paths are non-empty and free of commas. */
  predicate Printable(l: Loader, gate: bool)
    decreases l
  {
    && l.settings.None?
    && Settled(Render(l))
    && match l.spec
       case Class(p) => IsAbsolutePackagePath(p)
       case ClassPath(p) => IsAbsolutePackagePath(p)
       case File(_) => true
       case Webapp(p) =>
         && !StartsWith(p, ClassPrefix) && !StartsWith(p, ClassPathPrefix) && !StartsWith(p, FilePrefix)
         && !(gate && (StartsWith(p, "[") || StartsWith(p, "{")))
       case Multi(cs) => gate && AllPrintable(cs, gate)
  }

  predicate AllPrintable(cs: seq<Loader>, gate: bool)
    decreases cs
  {
    forall i :: 0 <= i < |cs| ==> Printable(cs[i], gate) && Render(cs[i]) != [] && ',' !in Render(cs[i])
  }

  /** Printing a printable loader and parsing the path gives the loader back. */
  lemma {:induction false} RoundTrip(l: Loader, gate: bool, configure: Evaluator)
    requires Printable(l, gate)
    ensures CreateTemplateLoader(Render(l), gate, configure) == Ok(l)
    decreases l
  {
    var s := Render(l);
    SettledHasNoClause(s);
    match l.spec
    case Class(p) => ClassForm(p, gate, configure); NormalizedFixpoint(p);
    case ClassPath(p) => ClassPathForm(p, gate, configure); NormalizedFixpoint(p);
    case File(f) => FileRendered(f, gate, configure);
    case Webapp(p) =>
    case Multi(cs) =>
      RenderAllAt(cs);
      forall i | 0 <= i < |cs| ensures CreateTemplateLoader(RenderAll(cs)[i], gate, configure) == Ok(cs[i]) {
        RoundTrip(cs[i], gate, configure);
      }
      MultiRendered(cs, gate, configure);
    NoClauseCreates(s, gate, configure);
  }

  /** A settled path has no settings clause and trims to itself. */
  lemma SettledHasNoClause(s: string)
    requires Settled(s)
    ensures Locate(s) == Ok(-1) && Trim(s) == s
  {
    TrimFixpoint(s);
    if s == [] {
      WhitespaceOnlyHasNoClause(s);
    } else {
      var n := |s| - 1;
      assert s[..n] + [s[n]] + [] == s;
      NoClauseUnlessClosingParen(s[..n], s[n], []);
    }
  }

  /** Without a settings clause the loader is the classified trimmed path. */
  lemma NoClauseCreates(s: string, gate: bool, configure: Evaluator)
    requires Locate(s) == Ok(-1) && Trim(s) == s && Classify(s, gate, configure).Ok?
    ensures CreateTemplateLoader(s, gate, configure) == Ok(Loader(Classify(s, gate, configure).value, None))
  {
  }

  /** The class loader forms keep the normalised rest of the path. */
  lemma ClassForm(rest: string, gate: bool, configure: Evaluator)
    ensures Classify(ClassPrefix + rest, gate, configure) == Ok(Class(Normalized(rest)))
  {
    var s := ClassPrefix + rest;
    assert s[..|ClassPrefix|] == ClassPrefix && s[|ClassPrefix|..] == rest;
  }

  lemma ClassPathForm(rest: string, gate: bool, configure: Evaluator)
    ensures Classify(ClassPathPrefix + rest, gate, configure) == Ok(ClassPath(Normalized(rest)))
  {
    var s := ClassPathPrefix + rest;
    assert s[5] == 'p' && ClassPrefix[5] == ':';
    DiffersFromPrefix(s, ClassPrefix, 5);
    assert s[..|ClassPathPrefix|] == ClassPathPrefix && s[|ClassPathPrefix|..] == rest;
  }

  lemma FileRendered(f: string, gate: bool, configure: Evaluator)
    ensures Classify(FilePrefix + f, gate, configure) == Ok(File(f))
  {
    var s := FilePrefix + f;
    assert s[0] == 'f' && ClassPrefix[0] == 'c' && ClassPathPrefix[0] == 'c';
    assert s[..|FilePrefix|] == FilePrefix && s[|FilePrefix|..] == f;
  }

  /** A bracketed list of child paths, each of which parses back to its
      child, classifies to the list of children. */
  lemma MultiRendered(cs: seq<Loader>, gate: bool, configure: Evaluator)
    requires gate && AllPrintable(cs, gate)
    requires forall i :: 0 <= i < |cs| ==> CreateTemplateLoader(RenderAll(cs)[i], gate, configure) == Ok(cs[i])
    ensures Classify("[" + Join(RenderAll(cs), ',') + "]", gate, configure) == Ok(Multi(cs))
  {
    var rs := RenderAll(cs);
    var s := "[" + Join(rs, ',') + "]";
    assert s[1..|s| - 1] == Join(rs, ',');
    RenderAllAt(cs);
    forall i | 0 <= i < |rs| ensures rs[i] != "" && IsTrimmed(rs[i]) && ',' !in rs[i] {
      assert Printable(cs[i], gate);
    }
    ListRoundTrip(rs);
    MultiChildren(s, gate, configure);
    var children := Classify(s, gate, configure).value.children;
    assert children == cs;
  }

  // ---------------------------------------------------------------------
  // Examples
  // ---------------------------------------------------------------------

  /** Leading slashes of a class path are collapsed into one '/', and a
      missing one is added. */
  lemma ClassPathsAreNormalised(gate: bool, configure: Evaluator)
    ensures CreateTemplateLoader("class://a/b", gate, configure) == Ok(Loader(Class("/a/b"), None))
    ensures CreateTemplateLoader("classpath://a", gate, configure) == Ok(Loader(ClassPath("/a"), None))
  {
    ClassExample(gate, configure);
    ClassPathExample(gate, configure);
  }

  lemma ClassExample(gate: bool, configure: Evaluator)
    ensures CreateTemplateLoader("class://a/b", gate, configure) == Ok(Loader(Class("/a/b"), None))
  {
    var s := "class://a/b";
    ClassExampleText();
    SettledHasNoClause(s);
    ClassForm("a/b", gate, configure);
    assert Normalized("a/b") == "/a/b" by {
      assert StripLeadingSlashes("a/b") == "a/b";
    }
    NoClauseCreates(s, gate, configure);
  }

  lemma ClassExampleText()
    ensures "class://a/b" == ClassPrefix + "a/b" && Settled("class://a/b")
  {
  }

  lemma ClassPathExample(gate: bool, configure: Evaluator)
    ensures CreateTemplateLoader("classpath://a", gate, configure) == Ok(Loader(ClassPath("/a"), None))
  {
    var s := "classpath://a";
    ClassPathExampleText();
    SettledHasNoClause(s);
    ClassPathForm("//a", gate, configure);
    assert Normalized("//a") == "/a" by {
      var a := "//a";
      assert a[1..] == "/a" && a[1..][1..] == "a";
      assert StripLeadingSlashes("//a") == "a";
    }
    NoClauseCreates(s, gate, configure);
  }

  lemma ClassPathExampleText()
    ensures "classpath://a" == ClassPathPrefix + "//a" && Settled("classpath://a")
  {
  }

  /** A two-item list, once the gate is on. */
  lemma ListOfTwo(configure: Evaluator)
    ensures CreateTemplateLoader("[file:///x,classpath:/y]", true, configure)
         == Ok(Loader(Multi([Loader(File("/x"), None), Loader(ClassPath("/y"), None)]), None))
  {
    var l := Loader(Multi([Loader(File("/x"), None), Loader(ClassPath("/y"), None)]), None);
    ListOfTwoRendered();
    ListOfTwoPrintable();
    RoundTrip(l, true, configure);
  }

  lemma ListOfTwoRendered()
    ensures Render(Loader(Multi([Loader(File("/x"), None), Loader(ClassPath("/y"), None)]), None))
         == "[file:///x,classpath:/y]"
  {
    var a, b := Loader(File("/x"), None), Loader(ClassPath("/y"), None);
    ListOfTwoChildren();
    RenderPair(a, b);
    ListOfTwoText();
  }

  lemma RenderPair(a: Loader, b: Loader)
    ensures Render(Loader(Multi([a, b]), None)) == "[" + Render(a) + [','] + Render(b) + "]"
  {
    assert [a, b][1..] == [b];
    assert RenderAll([a, b]) == [Render(a), Render(b)];
    var texts := [Render(a), Render(b)];
    assert texts[1..] == [Render(b)];
    assert Join(texts, ',') == Render(a) + [','] + Render(b);
  }

  lemma ListOfTwoText()
    ensures "[" + "file:///x" + [','] + "classpath:/y" + "]" == "[file:///x,classpath:/y]"
  {
  }

  lemma ListOfTwoChildren()
    ensures Render(Loader(File("/x"), None)) == "file:///x"
    ensures Render(Loader(ClassPath("/y"), None)) == "classpath:/y"
  {
  }

  lemma ListOfTwoPrintable()
    ensures Printable(Loader(Multi([Loader(File("/x"), None), Loader(ClassPath("/y"), None)]), None), true)
  {
    var a, b := Loader(File("/x"), None), Loader(ClassPath("/y"), None);
    ListOfTwoRendered();
    FileChildPrintable();
    ClassPathChildPrintable();
    var cs := [a, b];
    assert cs[0] == a && cs[1] == b;
    assert AllPrintable(cs, true);
  }

  lemma FileChildPrintable()
    ensures var a := Loader(File("/x"), None);
      Printable(a, true) && Render(a) != [] && ',' !in Render(a)
  {
    ListOfTwoChildren();
    assert Settled("file:///x");
  }

  lemma ClassPathChildPrintable()
    ensures var b := Loader(ClassPath("/y"), None);
      Printable(b, true) && Render(b) != [] && ',' !in Render(b)
  {
    ListOfTwoChildren();
    assert Settled("classpath:/y");
  }

  /** "[" without "]" and a leading "{" are errors with the gate on, and
      webapp paths with it off. */
  lemma GatedForms(configure: Evaluator)
    ensures CreateTemplateLoader("[file:///x", true, configure) == Err(ClosingBracketMissing)
    ensures CreateTemplateLoader("{x}", true, configure) == Err(ReservedBrace)
    ensures CreateTemplateLoader("[file:///x", false, configure) == Ok(Loader(Webapp("[file:///x"), None))
  {
    var s1, s2 := "[file:///x", "{x}";
    assert Settled(s1) && Settled(s2);
    SettledHasNoClause(s1);
    SettledHasNoClause(s2);
    assert s1[..1] == "[" && s1[|s1| - 1..] != "]";
    assert s2[..1] == "{";
    ClassifyOutcome(s1, true, configure);
    ClassifyOutcome(s2, true, configure);
    assert s1[0] == '[' && ClassPrefix[0] == 'c' && ClassPathPrefix[0] == 'c' && FilePrefix[0] == 'f';
    NoClauseCreates(s1, false, configure);
  }

  /** A settings clause is located, the part before it is classified, and
      the evaluator starts just after the '(' and must reach the end. */
  lemma SettingsExample()
    ensures CreateTemplateLoader("foo?settings(a=1)", true, (spec, t: string, at) => Ok(|t|))
         == Ok(Loader(Webapp("foo"), Some(SettingsClause(13))))
    ensures CreateTemplateLoader("foo?settings(a=1)", true, (spec, t, at) => Ok(at))
         == Err(SettingsFailed(TrailingContent))
    ensures CreateTemplateLoader("foo?settings(a=1)", true, (spec, t, at) => Err("no such setting"))
         == Err(SettingsFailed(EvaluatorError("no such setting")))
  {
    var s := "foo?settings(a=1)";
    var toEnd: Evaluator := (spec, t: string, at) => Ok(|t|);
    var stop: Evaluator := (spec, t, at) => Ok(at);
    var fail: Evaluator := (spec, t, at) => Err("no such setting");
    FooSettings(toEnd);
    FooSettings(stop);
    FooSettings(fail);
    ClauseCreates(s, 3, true, toEnd);
    ClauseCreates(s, 3, true, stop);
    ClauseCreates(s, 3, true, fail);
  }

  /** With a settings clause at q, the loader for the classified part before
      it is handed to the evaluator. */
  lemma ClauseCreates(s: string, q: nat, gate: bool, configure: Evaluator)
    requires Locate(s) == Ok(q) && q < |s|
    requires Classify(Trim(s[..q]), gate, configure).Ok?
    ensures CreateTemplateLoader(s, gate, configure)
         == ApplySettings(Classify(Trim(s[..q]), gate, configure).value, s, q, configure)
  {
    assert (if q == -1 then s else s[..q]) == s[..q];
  }

  /** The steps of the example before the evaluator is called. */
  lemma FooSettings(configure: Evaluator)
    ensures var s := "foo?settings(a=1)";
      && Locate(s) == Ok(3) && Trim(s[..3]) == "foo"
      && Classify("foo", true, configure) == Ok(Webapp("foo"))
      && IndexOf(s, '(', 3) == 12
  {
    FooClause();
    FooHead();
    FooIsWebapp(configure);
  }

  lemma FooHead()
    ensures Trim("foo?settings(a=1)"[..3]) == "foo"
  {
    var head := "foo?settings(a=1)"[..3];
    assert |head| == 3 && head[0] == 'f' && head[1] == 'o' && head[2] == 'o';
    assert head == "foo";
    TrimFixpoint("foo");
  }

  lemma FooClause()
    ensures Locate("foo?settings(a=1)") == Ok(3)
    ensures IndexOf("foo?settings(a=1)", '(', 3) == 12
  {
    var s := "foo?settings(a=1)";
    SinglePlain("a=1");
    FooLayout();
    LocateAt(s, 3, 4, SettingsName, 12, [Plain("a=1")]);
    FirstParenAfterQuestion(s, 3, 4, SettingsName, 12);
  }

  lemma FooLayout()
    ensures ClauseAt("foo?settings(a=1)", 3, 4, SettingsName, 12, "a=1")
  {
    var s := "foo?settings(a=1)";
    SettingsNameIsIdentifier();
    assert s == "foo" + "?" + "" + SettingsName + "" + "(" + "a=1" + ")" + "";
    ClauseLayout(s, "foo", "", SettingsName, "", "a=1", "");
    assert |"foo"| == 3 && |SettingsName| + 4 == |"foo"| + 1 + |""| + |SettingsName| + |""|;
  }

  lemma FooIsWebapp(configure: Evaluator)
    ensures Classify("foo", true, configure) == Ok(Webapp("foo"))
  {
    var f := "foo";
    assert f[0] == 'f' && f[1] == 'o';
    assert ClassPrefix[0] == 'c' && ClassPathPrefix[0] == 'c' && FilePrefix[1] == 'i';
    DiffersFromPrefix(f, ClassPrefix, 0);
    DiffersFromPrefix(f, ClassPathPrefix, 0);
    DiffersFromPrefix(f, FilePrefix, 1);
    DiffersFromPrefix(f, "[", 0);
    DiffersFromPrefix(f, "{", 0);
  }
}
