/**
 * parseCommaSeparatedList and parseCommaSeparatedPatterns: split at every
 * ',', trim the pieces, drop empty ones, and refuse an empty piece anywhere
 * but in last position. The split is not quote-aware.
 */
module CommaList {
  import opened Wrappers
  import opened JavaText
  import opened ParseErrors

  /** Some piece other than the last trims to nothing. */
  predicate HasEmptyInteriorPiece(pieces: seq<string>) {
    exists i :: 0 <= i < |pieces| - 1 && Trim(pieces[i]) == ""
  }

  /** The trimmed pieces that are not empty, in their original order. */
  function Items(pieces: seq<string>): seq<string> {
    if pieces == [] then []
    else
      var last := Trim(pieces[|pieces| - 1]);
      Items(pieces[..|pieces| - 1]) + (if last == "" then [] else [last])
  }

  /** What parseCommaSeparatedList returns or throws. */
  function ParseList(value: string): Result<seq<string>, ParseError> {
    var pieces := Split(value, ',');
    if HasEmptyInteriorPiece(pieces) then Err(MissingListItem) else Ok(Items(pieces))
  }

  /** parseCommaSeparatedList: one pass over the pieces, appending the
      non-empty ones and failing at the first empty piece that is not last. */
  method ParseCommaSeparatedList(value: string) returns (r: Result<seq<string>, ParseError>)
    ensures r == ParseList(value)
  {
    var values := Split(value, ',');
    var list: seq<string> := [];
    var i := 0;
    while i < |values|
      invariant 0 <= i <= |values|
      invariant list == Items(values[..i])
      invariant forall k :: 0 <= k < i && k != |values| - 1 ==> |Trim(values[k])| != 0
    {
      var s := Trim(values[i]);
      ItemsStep(values, i);
      if |s| != 0 {
        list := list + [s];
      } else if i != |values| - 1 {
        return Err(MissingListItem);
      }
      i := i + 1;
    }
    assert values[..|values|] == values;
    return Ok(list);
  }

  /** Items of a prefix grown by one piece. */
  lemma ItemsStep(values: seq<string>, i: nat)
    requires i < |values|
    ensures |Trim(values[i])| == 0 ==> Items(values[..i + 1]) == Items(values[..i])
    ensures |Trim(values[i])| != 0 ==> Items(values[..i + 1]) == Items(values[..i]) + [Trim(values[i])]
  {
    assert values[..i + 1][..i] == values[..i];
  }

  /** The indices of the pieces that do not trim to nothing, in order. */
  function Selected(pieces: seq<string>): seq<nat> {
    if pieces == [] then []
    else
      var n := |pieces| - 1;
      Selected(pieces[..n]) + (if Trim(pieces[n]) == "" then [] else [n])
  }

  /** Item k is the trimmed piece Selected(pieces)[k], which is not empty. */
  lemma {:induction false} SelectedItems(pieces: seq<string>)
    ensures |Selected(pieces)| == |Items(pieces)|
    ensures forall k :: 0 <= k < |Selected(pieces)| ==>
      Selected(pieces)[k] < |pieces| && Items(pieces)[k] == Trim(pieces[Selected(pieces)[k]]) && Items(pieces)[k] != ""
  {
    if pieces != [] {
      var n := |pieces| - 1;
      var init := pieces[..n];
      SelectedItems(init);
      var sel, its := Selected(pieces), Items(pieces);
      forall k | 0 <= k < |sel| ensures sel[k] < |pieces| && its[k] == Trim(pieces[sel[k]]) && its[k] != "" {
        if k < |Selected(init)| {
          assert sel[k] == Selected(init)[k] && its[k] == Items(init)[k];
          assert init[sel[k]] == pieces[sel[k]];
        }
      }
    }
  }

  /** The selected indices increase. */
  lemma {:induction false} SelectedIncreasing(pieces: seq<string>)
    ensures forall k :: 0 <= k < |Selected(pieces)| ==> Selected(pieces)[k] < |pieces|
    ensures forall k, l :: 0 <= k < l < |Selected(pieces)| ==> Selected(pieces)[k] < Selected(pieces)[l]
  {
    if pieces != [] {
      var n := |pieces| - 1;
      SelectedIncreasing(pieces[..n]);
    }
  }

  /** Every piece that does not trim to nothing is selected. */
  lemma {:induction false} SelectedComplete(pieces: seq<string>)
    ensures forall j :: 0 <= j < |pieces| && Trim(pieces[j]) != "" ==> j in Selected(pieces)
  {
    if pieces != [] {
      var n := |pieces| - 1;
      var init := pieces[..n];
      SelectedComplete(init);
      var tail: seq<nat> := if Trim(pieces[n]) == "" then [] else [n];
      assert Selected(pieces) == Selected(init) + tail;
      forall j | 0 <= j < |pieces| && Trim(pieces[j]) != "" ensures j in Selected(pieces) {
        if j < n {
          assert init[j] == pieces[j];
          assert j in Selected(init);
        } else {
          assert j in tail;
        }
      }
    }
  }

  /** The items are a selection of the pieces: item k is the trimmed piece
      idx[k], the indices increase, and every piece that does not trim to
      nothing is selected. */
  lemma ItemsSelection(pieces: seq<string>) returns (idx: seq<nat>)
    ensures |idx| == |Items(pieces)|
    ensures forall k :: 0 <= k < |idx| ==>
      idx[k] < |pieces| && Items(pieces)[k] == Trim(pieces[idx[k]]) && Items(pieces)[k] != ""
    ensures forall k, l :: 0 <= k < l < |idx| ==> idx[k] < idx[l]
    ensures forall j :: 0 <= j < |pieces| && Trim(pieces[j]) != "" ==> j in idx
  {
    idx := Selected(pieces);
    SelectedItems(pieces);
    SelectedIncreasing(pieces);
    SelectedComplete(pieces);
  }

  /** Every item parseCommaSeparatedList returns is non-empty and trimmed. */
  lemma ListItemsTrimmed(value: string)
    requires ParseList(value).Ok?
    ensures forall k :: 0 <= k < |ParseList(value).value| ==>
      ParseList(value).value[k] != "" && Trim(ParseList(value).value[k]) == ParseList(value).value[k]
  {
    var items := ParseList(value).value;
    var idx := ItemsSelection(Split(value, ','));
    forall k | 0 <= k < |items| ensures items[k] != "" && Trim(items[k]) == items[k] {
      TrimFixpoint(items[k]);
    }
  }

  /** A trailing comma is dropped: adding one after a non-empty last item
      leaves the result unchanged. */
  lemma TrailingCommaDropped(value: string)
    requires ParseList(value).Ok?
    requires Trim(Split(value, ',')[|Split(value, ',')| - 1]) != ""
    ensures ParseList(value + ",") == ParseList(value)
  {
    var pieces := Split(value, ',');
    SplitConcat(value, ',', "");
    assert value + [','] + "" == value + ",";
    var more := pieces + [""];
    assert Split(value + ",", ',') == more;
    assert more[..|more| - 1] == pieces;
    assert Trim("") == "";
    forall i | 0 <= i < |more| - 1 ensures Trim(more[i]) != "" {
      assert more[i] == pieces[i];
    }
    assert Items(more) == Items(pieces) + [] == Items(pieces);
  }

  /** An empty (or blank) item between two commas makes the list fail. */
  lemma EmptyInteriorItemFails(a: string, w: string, b: string)
    requires AllBlank(w)
    ensures ParseList(a + "," + w + "," + b) == Err(MissingListItem)
  {
    PiecesAround(a, w, b);
    TrimEmpty(w);
    var pieces := Split(a, ',') + [w] + Split(b, ',');
    var i := |Split(a, ',')|;
    assert pieces[i] == w;
  }

  /** A blank stretch between two commas is one piece of its own. */
  lemma PiecesAround(a: string, w: string, b: string)
    requires AllBlank(w)
    ensures Split(a + "," + w + "," + b, ',') == Split(a, ',') + [w] + Split(b, ',')
  {
    BlankHasNoComma(w);
    PiecesAfter(w, b);
    SplitConcat(a, ',', w + [','] + b);
    CommaRegroup(a, w, b);
    InsertOne(Split(a, ','), w, Split(b, ','));
  }

  /** A comma-free piece followed by a comma splits off as one piece. */
  lemma PiecesAfter(w: string, b: string)
    requires ',' !in w
    ensures Split(w + [','] + b, ',') == [w] + Split(b, ',')
  {
    SplitNoSeparator(w, ',');
    SplitConcat(w, ',', b);
  }

  lemma InsertOne(x: seq<string>, w: string, y: seq<string>)
    ensures x + ([w] + y) == x + [w] + y
  {
  }

  lemma BlankHasNoComma(w: string)
    requires AllBlank(w)
    ensures ',' !in w
  {
    forall k | 0 <= k < |w| ensures w[k] != ',' {
      assert IsBlank(w[k]);
    }
  }

  lemma CommaRegroup(a: string, w: string, b: string)
    ensures a + "," + w + "," + b == a + [','] + (w + [','] + b)
  {
  }

  /** Non-empty trimmed pieces are their own items. */
  lemma {:induction false} ItemsOfTrimmed(pieces: seq<string>)
    requires forall i :: 0 <= i < |pieces| ==> pieces[i] != "" && IsTrimmed(pieces[i])
    ensures Items(pieces) == pieces
  {
    if pieces != [] {
      var n := |pieces| - 1;
      ItemsOfTrimmed(pieces[..n]);
      TrimFixpoint(pieces[n]);
      assert pieces[..n] + [pieces[n]] == pieces;
    }
  }

  /** Joining non-empty, trimmed, comma-free items with commas and parsing
      the result gives the items back. */
  lemma ListRoundTrip(items: seq<string>)
    requires forall i :: 0 <= i < |items| ==> items[i] != "" && IsTrimmed(items[i]) && ',' !in items[i]
    ensures ParseList(Join(items, ',')) == Ok(items)
  {
    if items == [] {
      assert Split("", ',') == [""];
      assert Trim("") == "";
    } else {
      SplitJoin(items, ',');
      ItemsOfTrimmed(items);
      forall i | 0 <= i < |items| ensures Trim(items[i]) == items[i] {
        TrimFixpoint(items[i]);
      }
    }
  }

  /** parseCommaSeparatedPatterns: the list items, each handed to the
      pattern compiler in order; the first item that does not compile is
      the failure. */
  method ParseCommaSeparatedPatterns<P>(value: string, compile: string -> Result<P, string>)
    returns (r: Result<seq<P>, ParseError>)
    ensures match ParseList(value)
      case Err(e) => r == Err(e)
      case Ok(items) =>
        if forall i :: 0 <= i < |items| ==> compile(items[i]).Ok? then
          r.Ok? && |r.value| == |items| && forall i :: 0 <= i < |items| ==> compile(items[i]) == Ok(r.value[i])
        else
          exists i :: 0 <= i < |items| && compile(items[i]).Err? &&
            (forall j :: 0 <= j < i ==> compile(items[j]).Ok?) &&
            r == Err(PatternSyntax(items[i], compile(items[i]).error))
  {
    var values := ParseCommaSeparatedList(value);
    if values.Err? {
      return Err(values.error);
    }
    var items := values.value;
    var patterns: seq<P> := [];
    var i := 0;
    while i < |items|
      invariant 0 <= i <= |items|
      invariant |patterns| == i
      invariant forall j :: 0 <= j < i ==> compile(items[j]) == Ok(patterns[j])
    {
      var compiled := compile(items[i]);
      if compiled.Err? {
        return Err(PatternSyntax(items[i], compiled.error));
      }
      patterns := patterns + [compiled.value];
      i := i + 1;
    }
    return Ok(patterns);
  }
}
