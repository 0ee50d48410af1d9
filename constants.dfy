/** The fixed target-language lists of the application. */
module Constants {
  import opened Sequences

  /** Targets for plain-text input, where English is the source language. */
  const TextInputLanguages: seq<string> :=
    ["fr", "es", "pt", "de", "ru", "it", "uk", "ro", "cs", "pl",
     "nl", "lt", "et", "lv", "sk", "hu", "bg", "th", "vi"]

  /** Targets for ARB and JS/TS input, where the file may also need an English entry. */
  const CodeInputLanguages: seq<string> := ["en"] + TextInputLanguages

  /** Nineteen targets, none of them English, none listed twice. */
  lemma TextInputLanguagesWellFormed()
    ensures |TextInputLanguages| == 19
    ensures "en" !in TextInputLanguages
    ensures Distinct(TextInputLanguages)
  {
  }

  /** The code-input list is English followed by the text-input list, in the same order, without repeats. */
  lemma CodeInputLanguagesWellFormed()
    ensures |CodeInputLanguages| == 20 && CodeInputLanguages[0] == "en"
    ensures CodeInputLanguages[1..] == TextInputLanguages
    ensures forall i :: 0 <= i < |TextInputLanguages| ==> CodeInputLanguages[i + 1] == TextInputLanguages[i]
    ensures Distinct(CodeInputLanguages)
  {
    TextInputLanguagesWellFormed();
    forall i, j | 0 <= i < j < |CodeInputLanguages| ensures CodeInputLanguages[i] != CodeInputLanguages[j] {
      if i > 0 {
        assert CodeInputLanguages[i] == TextInputLanguages[i - 1];
      } else {
        assert CodeInputLanguages[j] in TextInputLanguages;
      }
    }
  }
}
