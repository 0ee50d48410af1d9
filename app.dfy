/**
 * The page controller: which lines of the input are sent for translation, and
 * how the translate action moves the loading flag, the error and the results.
 */
module App {
  import opened Wrappers
  import opened Sequences
  import opened JsStrings
  import opened JsValues
  import GeminiService

  const DefaultInput := "You have {count, plural, =0{no new messages} =1{1 new message} other{{count} new messages}}.\nHello, {name}!"
  const EmptyInputMessage := "Please enter at least one string to translate."
  const UnknownErrorMessage := "An unknown error occurred during translation."

  /** The filter of the action: keep a line when `line.trim() !== ''`. */
  predicate KeepLine(line: string) {
    Trim(line) != ""
  }

  /** `lines.filter(s => s.trim() !== '')`. */
  function NonBlankLines(lines: seq<string>): (kept: seq<string>)
    ensures |kept| <= |lines|
    ensures forall i :: 0 <= i < |kept| ==> KeepLine(kept[i])
  {
    if lines == [] then []
    else if KeepLine(lines[0]) then [lines[0]] + NonBlankLines(lines[1..])
    else NonBlankLines(lines[1..])
  }

  /**
   * The kept lines are the non-blank ones in their original order, each
   * exactly as it was (not trimmed), and every non-blank line is kept as often
   * as it occurs.
   */
  lemma {:induction false} NonBlankLinesSpec(lines: seq<string>)
    ensures IsSubsequence(NonBlankLines(lines), lines)
    ensures forall x :: KeepLine(x) ==> multiset(NonBlankLines(lines))[x] == multiset(lines)[x]
  {
    if lines != [] {
      NonBlankLinesSpec(lines[1..]);
      assert lines == [lines[0]] + lines[1..];
      var rest := NonBlankLines(lines[1..]);
      if !KeepLine(lines[0]) && rest != [] {
        assert KeepLine(rest[0]);
        assert rest[0] != lines[0];
      }
    }
  }

  /** `icuString.split('\n').filter(...)`: the strings the action sends. */
  function SelectLines(input: string): seq<string> {
    NonBlankLines(Split(input, '\n'))
  }

  /**
   * Kept lines are sent untrimmed: from a Windows-style input with a blank
   * middle line, the spaces and the carriage return stay in the request.
   */
  lemma KeptLinesAreNotTrimmed()
    ensures SelectLines(" a \r\n \t\nb") == [" a \r", "b"]
  {
    var lines := [" a \r", " \t", "b"];
    assert Split(" a \r\n \t\nb", '\n') == lines by {
      assert Join(lines, "\n") == " a \r\n \t\nb" by {
        assert lines[1..] == [" \t", "b"] && lines[1..][1..] == ["b"];
      }
      assert '\n' !in lines[0] && '\n' !in lines[1] && '\n' !in lines[2];
      SplitJoinChar(lines, '\n');
    }
    ExampleFilter(lines);
  }

  /** The filter step of the example above: the blank middle line is dropped, the others are kept whole. */
  lemma ExampleFilter(lines: seq<string>)
    requires lines == [" a \r", " \t", "b"]
    ensures NonBlankLines(lines) == [" a \r", "b"]
  {
    TrimEmptyIffBlank(" a \r");
    assert !IsWhitespace(" a \r"[1]);
    TrimEmptyIffBlank(" \t");
    TrimEmptyIffBlank("b");
    assert !IsWhitespace("b"[0]);
    assert KeepLine(" a \r") && !KeepLine(" \t") && KeepLine("b");
    assert lines[1..] == [" \t", "b"] && lines[1..][1..] == ["b"] && lines[1..][1..][1..] == [];
    assert NonBlankLines(["b"]) == ["b"];
    assert NonBlankLines([" \t", "b"]) == ["b"];
  }

  /** Nothing is sent exactly when every line, and so the whole input, is blank. */
  lemma NothingSelectedIffBlank(input: string)
    ensures SelectLines(input) == [] <==> IsBlank(input)
  {
    var lines := Split(input, '\n');
    JoinSplit(input, '\n');
    NonBlankLinesSpec(lines);
    if SelectLines(input) == [] {
      forall i | 0 <= i < |lines| ensures IsBlank(lines[i]) {
        assert multiset(lines)[lines[i]] > 0;
        TrimEmptyIffBlank(lines[i]);
      }
      BlankJoin(lines, '\n');
    } else {
      var x := SelectLines(input)[0];
      assert KeepLine(x);
      TrimEmptyIffBlank(x);
      assert multiset(lines)[x] > 0;
      var i :| 0 <= i < |lines| && lines[i] == x;
      JoinHasPart(lines, '\n', i);
    }
  }

  /** Blank pieces joined by a whitespace separator make a blank string. */
  lemma {:induction false} BlankJoin(parts: seq<string>, c: char)
    requires IsWhitespace(c)
    requires forall i :: 0 <= i < |parts| ==> IsBlank(parts[i])
    ensures IsBlank(Join(parts, [c]))
  {
    if |parts| > 1 {
      BlankJoin(parts[1..], c);
      var tail := Join(parts[1..], [c]);
      var s := parts[0] + [c] + tail;
      forall k | 0 <= k < |s| ensures IsWhitespace(s[k]) {
        if k < |parts[0]| {
          assert s[k] == parts[0][k];
        } else if k > |parts[0]| {
          assert s[k] == tail[k - |parts[0]| - 1];
        }
      }
    }
  }

  /** A non-blank piece makes its join non-blank. */
  lemma {:induction false} JoinHasPart(parts: seq<string>, c: char, i: nat)
    requires i < |parts| && !IsBlank(parts[i])
    ensures !IsBlank(Join(parts, [c]))
  {
    if |parts| > 1 {
      var tail := Join(parts[1..], [c]);
      var s := parts[0] + [c] + tail;
      if i == 0 {
        var k :| 0 <= k < |parts[0]| && !IsWhitespace(parts[0][k]);
        assert s[k] == parts[0][k];
      } else {
        JoinHasPart(parts[1..], c, i - 1);
        var k :| 0 <= k < |tail| && !IsWhitespace(tail[k]);
        assert s[|parts[0]| + 1 + k] == tail[k];
      }
    }
  }

  /** `Translation failed: <message>` for an `Error`, a fixed text for any other thrown value. */
  function ErrorMessage(e: Thrown): (message: string)
    ensures e.ErrorObject? ==> message == "Translation failed: " + e.message
    ensures e.NonError? ==> message == UnknownErrorMessage
  {
    match e
    case ErrorObject(_, m) => "Translation failed: " + m
    case NonError(_) => UnknownErrorMessage
  }

  /**
   * Every failure of the translation service reaches the page as
   * "Translation failed: " followed by one of its three messages, never as the
   * unknown-error text.
   */
  lemma ServiceFailureIsReported(apiKey: Option<string>, icuStrings: seq<string>, languages: seq<string>,
                                 call: GeminiService.Request -> GeminiService.CallOutcome,
                                 parse: string -> GeminiService.ParseOutcome)
    requires GeminiService.TranslateIcuStrings(apiKey, icuStrings, languages, call, parse).Failure?
    ensures var m := ErrorMessage(GeminiService.TranslateIcuStrings(apiKey, icuStrings, languages, call, parse).error);
      || m == "Translation failed: " + GeminiService.MissingKeyMessage
      || m == "Translation failed: " + GeminiService.ParseFailedMessage
      || m == "Translation failed: " + GeminiService.FetchFailedMessage
  {
  }

  /** The page state the translate action reads and writes. */
  class Page {
    var icuString: string
    var results: seq<GeminiService.ServiceResult>
    var isLoading: bool
    var error: Option<string>

    constructor ()
      ensures icuString == DefaultInput && results == [] && !isLoading && error == None
    {
      icuString := DefaultInput;
      results := [];
      isLoading := false;
      error := None;
    }

    /** The text area's change handler. */
    method EditInput(value: string)
      modifies this`icuString
      ensures icuString == value
    {
      icuString := value;
    }

    /**
     * The action up to the `await`: select the lines; with none, report the
     * empty input and stop (nothing is requested and loading and results are
     * left alone); otherwise set loading, clear the error and the results, and
     * request the selected lines.
     */
    method BeginTranslate() returns (request: Option<seq<string>>)
      modifies this`isLoading, this`error, this`results
      ensures SelectLines(icuString) == [] ==>
                request == None && error == Some(EmptyInputMessage) && isLoading == old(isLoading) && results == old(results)
      ensures SelectLines(icuString) != [] ==>
                request == Some(SelectLines(icuString)) && isLoading && error == None && results == []
    {
      var stringsToTranslate := SelectLines(icuString);
      assert |stringsToTranslate| == 0 <==> stringsToTranslate == [];
      if |stringsToTranslate| == 0 {
        error := Some(EmptyInputMessage);
        return None;
      }
      isLoading := true;
      error := None;
      results := [];
      request := Some(stringsToTranslate);
    }

    /**
     * The action after the `await`: store the results, or report the failure;
     * loading ends either way.
     */
    method FinishTranslate(outcome: Result<seq<GeminiService.ServiceResult>, Thrown>)
      modifies this`isLoading, this`error, this`results
      ensures !isLoading
      ensures outcome.Success? ==> results == outcome.value && error == old(error)
      ensures outcome.Failure? ==> results == old(results) && error == Some(ErrorMessage(outcome.error))
    {
      match outcome {
        case Success(translationResults) =>
          results := translationResults;
        case Failure(err) =>
          error := Some(ErrorMessage(err));
      }
      isLoading := false;
    }

    /** `handleTranslate`, with the translation service given as a function of the selected lines. */
    method HandleTranslate(translate: seq<string> -> Result<seq<GeminiService.ServiceResult>, Thrown>)
      returns (request: Option<seq<string>>)
      modifies this`isLoading, this`error, this`results
      ensures IsBlank(icuString) ==>
                request == None && error == Some(EmptyInputMessage) && isLoading == old(isLoading) && results == old(results)
      ensures !IsBlank(icuString) ==> request == Some(SelectLines(icuString)) && !isLoading
      ensures !IsBlank(icuString) && translate(SelectLines(icuString)).Success? ==>
                results == translate(SelectLines(icuString)).value && error == None
      ensures !IsBlank(icuString) && translate(SelectLines(icuString)).Failure? ==>
                results == [] && error == Some(ErrorMessage(translate(SelectLines(icuString)).error))
    {
      NothingSelectedIffBlank(icuString);
      request := BeginTranslate();
      if request.Some? {
        FinishTranslate(translate(request.value));
      }
    }
  }
}
