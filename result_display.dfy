/**
 * The clipboard exports of the results table: the ID column, the translations
 * alone, and the whole table, each as tab-separated rows joined by line feeds.
 */
module ResultDisplay {
  import opened Wrappers
  import opened JsStrings

  /** The format the strings were pasted in. */
  datatype InputType = Arb | Js | Text

  /** One row of the table: an optional message id, the English original and its translations by language code. */
  datatype TranslationResult = TranslationResult(id: Option<string>, original: string, translations: map<string, string>)

  /** The ID column exists for the two code formats and never for plain text. */
  function ShowIdColumn(inputType: InputType): (show: bool)
    ensures show <==> inputType != Text
  {
    inputType == Arb || inputType == Js
  }

  /** `result.id || ''`: the id, or the empty string when it is missing. */
  function IdOrEmpty(result: TranslationResult): (id: string)
    ensures result.id.None? ==> id == ""
    ensures result.id.Some? ==> id == result.id.value
  {
    match result.id
    case Some(s) => s
    case None => ""
  }

  /**
   * One translation cell: the translation with tabs and line feeds turned into
   * spaces, or the empty string when the language has no entry.
   */
  function Cell(result: TranslationResult, lang: string): (cell: string)
    ensures lang !in result.translations ==> cell == ""
    ensures lang in result.translations ==> |cell| == |result.translations[lang]|
    ensures lang in result.translations ==> forall i :: 0 <= i < |cell| ==>
      cell[i] == (if result.translations[lang][i] in "\t\n" then ' ' else result.translations[lang][i])
    ensures '\t' !in cell && '\n' !in cell
  {
    if lang in result.translations then ReplaceTabsAndNewlines(result.translations[lang]) else ""
  }

  /** The translation cells of one result, one per language in the given order. */
  function TranslationCells(result: TranslationResult, languages: seq<string>): (cells: seq<string>)
    ensures |cells| == |languages|
    ensures forall i :: 0 <= i < |cells| ==> cells[i] == Cell(result, languages[i])
  {
    seq(|languages|, i requires 0 <= i < |languages| => Cell(result, languages[i]))
  }

  /** The cells of one "Copy All" row: the id (when the column is shown), the original, then the translations. */
  function AllFields(result: TranslationResult, languages: seq<string>, inputType: InputType): (fields: seq<string>)
    ensures |fields| == (if ShowIdColumn(inputType) then 1 else 0) + 1 + |languages|
    ensures ShowIdColumn(inputType) ==>
              fields[0] == IdOrEmpty(result) && fields[1] == result.original && fields[2..] == TranslationCells(result, languages)
    ensures !ShowIdColumn(inputType) ==>
              fields[0] == result.original && fields[1..] == TranslationCells(result, languages)
  {
    var base := if ShowIdColumn(inputType) then [IdOrEmpty(result), result.original] else [result.original];
    base + TranslationCells(result, languages)
  }

  function IdRows(results: seq<TranslationResult>): (ids: seq<string>)
    ensures |ids| == |results|
    ensures forall i :: 0 <= i < |ids| ==> ids[i] == IdOrEmpty(results[i])
  {
    seq(|results|, i requires 0 <= i < |results| => IdOrEmpty(results[i]))
  }

  function TranslationRows(results: seq<TranslationResult>, languages: seq<string>): (rows: seq<string>)
    ensures |rows| == |results|
    ensures forall i :: 0 <= i < |rows| ==> rows[i] == Join(TranslationCells(results[i], languages), "\t")
  {
    seq(|results|, i requires 0 <= i < |results| => Join(TranslationCells(results[i], languages), "\t"))
  }

  function AllRows(results: seq<TranslationResult>, languages: seq<string>, inputType: InputType): (rows: seq<string>)
    ensures |rows| == |results|
    ensures forall i :: 0 <= i < |rows| ==> rows[i] == Join(AllFields(results[i], languages, inputType), "\t")
  {
    seq(|results|, i requires 0 <= i < |results| => Join(AllFields(results[i], languages, inputType), "\t"))
  }

  /** The text "Copy IDs" writes to the clipboard. */
  function CopyIdsText(results: seq<TranslationResult>): string {
    Join(IdRows(results), "\n")
  }

  /** The text "Copy Translations" writes to the clipboard. */
  function CopyTranslationsText(results: seq<TranslationResult>, languages: seq<string>): string {
    Join(TranslationRows(results, languages), "\n")
  }

  /** The text "Copy All" writes to the clipboard. */
  function CopyAllText(results: seq<TranslationResult>, languages: seq<string>, inputType: InputType): string {
    Join(AllRows(results, languages, inputType), "\n")
  }

  /**
   * Reading "Copy IDs" back: splitting on line feeds gives one entry per
   * result, in order, each the result's id or the empty string, as long as no
   * id holds a line feed.
   */
  lemma CopyIdsReadBack(results: seq<TranslationResult>)
    requires |results| > 0
    requires forall i :: 0 <= i < |results| && results[i].id.Some? ==> '\n' !in results[i].id.value
    ensures Split(CopyIdsText(results), '\n') == IdRows(results)
    ensures |Split(CopyIdsText(results), '\n')| == |results|
    ensures forall i :: 0 <= i < |results| ==>
      Split(CopyIdsText(results), '\n')[i] == (if results[i].id.Some? then results[i].id.value else "")
  {
    SplitJoinChar(IdRows(results), '\n');
  }

  /**
   * Reading "Copy Translations" back: one line per result, in order, and each
   * line splits on tabs into exactly the cells of that result, one per
   * language, so a non-empty language list gives |languages| - 1 tabs per
   * line and an empty one gives empty lines.
   */
  lemma CopyTranslationsReadBack(results: seq<TranslationResult>, languages: seq<string>, i: nat)
    requires i < |results|
    ensures Split(CopyTranslationsText(results, languages), '\n') == TranslationRows(results, languages)
    ensures |languages| == 0 ==> TranslationRows(results, languages)[i] == ""
    ensures |languages| > 0 ==> |Split(TranslationRows(results, languages)[i], '\t')| == |languages|
    ensures |languages| > 0 ==> forall j :: 0 <= j < |languages| ==>
      Split(TranslationRows(results, languages)[i], '\t')[j] == Cell(results[i], languages[j])
    ensures |languages| > 0 ==> Occurrences(TranslationRows(results, languages)[i], '\t') == |languages| - 1
  {
    var rows := TranslationRows(results, languages);
    forall k | 0 <= k < |rows| ensures '\n' !in rows[k] {
      JoinFree(TranslationCells(results[k], languages), '\t', '\n');
    }
    SplitJoinChar(rows, '\n');
    if |languages| > 0 {
      SplitJoinChar(TranslationCells(results[i], languages), '\t');
      JoinCount(TranslationCells(results[i], languages), '\t');
    }
  }

  /**
   * Reading "Copy All" back into lines: when no shown id and no original holds
   * a line feed (they are copied unchanged), there is exactly one line per
   * result, in order.
   */
  lemma CopyAllReadBack(results: seq<TranslationResult>, languages: seq<string>, inputType: InputType)
    requires forall k :: 0 <= k < |results| ==>
      (ShowIdColumn(inputType) ==> '\n' !in IdOrEmpty(results[k])) && '\n' !in results[k].original
    ensures results == [] ==> CopyAllText(results, languages, inputType) == ""
    ensures |results| > 0 ==> Split(CopyAllText(results, languages, inputType), '\n') == AllRows(results, languages, inputType)
  {
    var rows := AllRows(results, languages, inputType);
    forall k | 0 <= k < |rows| ensures '\n' !in rows[k] {
      FieldsFree(results[k], languages, inputType, '\n');
      JoinFree(AllFields(results[k], languages, inputType), '\t', '\n');
    }
    if rows != [] {
      SplitJoinChar(rows, '\n');
    }
  }

  /**
   * Reading one "Copy All" row back into cells: when neither the shown id nor
   * the original holds a tab, the row splits on tabs into the id (only when
   * the column is shown), the original and one sanitised cell per language,
   * with (ID column ? 1 : 0) + |languages| tabs. Line feeds in the id or the
   * original do not matter here.
   */
  lemma CopyAllRowReadBack(result: TranslationResult, languages: seq<string>, inputType: InputType)
    requires ShowIdColumn(inputType) ==> '\t' !in IdOrEmpty(result)
    requires '\t' !in result.original
    ensures var cells := Split(Join(AllFields(result, languages, inputType), "\t"), '\t');
      ShowIdColumn(inputType) ==>
        && |cells| == 2 + |languages|
        && cells[0] == (if result.id.Some? then result.id.value else "")
        && cells[1] == result.original
        && forall j :: 0 <= j < |languages| ==> cells[2 + j] == Cell(result, languages[j])
    ensures var cells := Split(Join(AllFields(result, languages, inputType), "\t"), '\t');
      !ShowIdColumn(inputType) ==>
        && |cells| == 1 + |languages|
        && cells[0] == result.original
        && forall j :: 0 <= j < |languages| ==> cells[1 + j] == Cell(result, languages[j])
    ensures Occurrences(Join(AllFields(result, languages, inputType), "\t"), '\t')
            == (if ShowIdColumn(inputType) then 1 else 0) + |languages|
  {
    var fields := AllFields(result, languages, inputType);
    FieldsFree(result, languages, inputType, '\t');
    SplitJoinChar(fields, '\t');
    JoinCount(fields, '\t');
  }

  /** A character absent from the shown id and the original is absent from every "Copy All" field, the translation cells being sanitised. */
  lemma FieldsFree(result: TranslationResult, languages: seq<string>, inputType: InputType, c: char)
    requires c == '\t' || c == '\n'
    requires ShowIdColumn(inputType) ==> c !in IdOrEmpty(result)
    requires c !in result.original
    ensures forall k :: 0 <= k < |AllFields(result, languages, inputType)| ==> c !in AllFields(result, languages, inputType)[k]
  {
  }
}
