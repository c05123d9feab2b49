/**
 * The compiled document: a fixed sequence of lines holding the original
 * transcript, the speaker-grouped transcript, the summary and, for a
 * transcript not in English, its translation. The lines are joined with
 * newlines into the one text that is stored, written to the record and
 * emailed.
 */
module CompiledDocument {
  import opened Wrappers
  import opened Text

  /** The summarisation chain is run without returning its intermediate steps. */
  const ReturnIntermediateSteps := false

  /** What the summarisation chain returns: the final summary and the per-chunk summaries. */
  datatype Summary = Summary(outputText: string, intermediateSteps: seq<string>)

  /** The opening lines, up to the heading of the speaker-grouped section. */
  function Opening(transcript: string): seq<string>
  {
    ["Original Transcript", "", transcript, "", "", "", "Full Transcript - Grouped by Speaker", ""]
  }

  /** The summarisation section; the chunk summaries follow only when intermediate steps are returned. */
  function SummaryBlock(summary: Summary): seq<string>
  {
    ["", "", "Summarisation Results", "", "Summary", summary.outputText, "", "Summary Chunks"] +
    (if ReturnIntermediateSteps then summary.intermediateSteps else [])
  }

  /** The translation section. */
  function TranslationBlock(translatedText: string): seq<string>
  {
    ["", "", "Translation Results", translatedText]
  }

  /** The whole document; the translation section is present only when there is a translation. */
  function Document(transcript: string, speakerLines: seq<string>, summary: Summary, translation: Option<string>): (doc: seq<string>)
    ensures |doc| == 16 + |speakerLines| + (if translation.Some? then 4 else 0)
  {
    Opening(transcript) + speakerLines + SummaryBlock(summary) +
    (match translation
     case None => []
     case Some(t) => TranslationBlock(t))
  }

  /** The stored text: the lines joined with newlines. */
  function Message(lines: seq<string>): (text: string)
    ensures |lines| >= 1 && LinesWithout(lines, '\n') ==> Split(text, '\n') == lines
  {
    MessageSplits(lines);
    Join("\n", lines)
  }

  /** Splitting a newline join of newline-free lines gives the lines back. */
  lemma MessageSplits(lines: seq<string>)
    ensures |lines| >= 1 && LinesWithout(lines, '\n') ==> Split(Join("\n", lines), '\n') == lines
  {
    if |lines| >= 1 && LinesWithout(lines, '\n') {
      SplitJoin(lines, '\n');
    }
  }

  /**
   * The fixed layout, line by line: eight opening lines, one line per speaker
   * line, eight summary lines and no chunk summaries, then the four
   * translation lines as the very last ones when there is a translation.
   */
  lemma Layout(transcript: string, speakerLines: seq<string>, summary: Summary, translation: Option<string>)
    ensures var doc := Document(transcript, speakerLines, summary, translation);
      var n := |speakerLines|;
      |doc| == 16 + n + (if translation.Some? then 4 else 0) &&
      doc[..8] == ["Original Transcript", "", transcript, "", "", "", "Full Transcript - Grouped by Speaker", ""] &&
      doc[8..8 + n] == speakerLines &&
      doc[8 + n..16 + n] == ["", "", "Summarisation Results", "", "Summary", summary.outputText, "", "Summary Chunks"] &&
      (translation.Some? ==> doc[16 + n..] == ["", "", "Translation Results", translation.value])
  {
    var doc := Document(transcript, speakerLines, summary, translation);
    var n := |speakerLines|;
    assert doc[..8] == Opening(transcript);
    assert doc[8..8 + n] == speakerLines;
    assert doc[8 + n..16 + n] == SummaryBlock(summary);
    if translation.Some? {
      assert doc[16 + n..] == TranslationBlock(translation.value);
    }
  }

  /** A translation never moves an earlier section: it only appends its own, at the end. */
  lemma TranslationAppends(transcript: string, speakerLines: seq<string>, summary: Summary, translatedText: string)
    ensures Document(transcript, speakerLines, summary, Some(translatedText)) ==
            Document(transcript, speakerLines, summary, None) + TranslationBlock(translatedText)
  {
  }

  /** Every line of the document is free of newlines when its inputs are. */
  ghost predicate LinesWithout(lines: seq<string>, c: char)
  {
    forall i :: 0 <= i < |lines| ==> c !in lines[i]
  }

  /**
   * When no input holds a newline, the stored text determines the document:
   * splitting it at newlines gives back its lines.
   */
  lemma MessageDeterminesDocument(transcript: string, speakerLines: seq<string>, summary: Summary, translation: Option<string>)
    requires '\n' !in transcript && '\n' !in summary.outputText
    requires LinesWithout(speakerLines, '\n')
    requires translation.Some? ==> '\n' !in translation.value
    ensures Split(Message(Document(transcript, speakerLines, summary, translation)), '\n') ==
            Document(transcript, speakerLines, summary, translation)
  {
    var doc := Document(transcript, speakerLines, summary, translation);
    var tail := match translation case None => [] case Some(t) => TranslationBlock(t);
    OpeningWithout(transcript);
    SummaryBlockWithout(summary);
    if translation.Some? {
      TranslationBlockWithout(translation.value);
    }
    LinesWithoutConcat(Opening(transcript), speakerLines, '\n');
    LinesWithoutConcat(Opening(transcript) + speakerLines, SummaryBlock(summary), '\n');
    LinesWithoutConcat(Opening(transcript) + speakerLines + SummaryBlock(summary), tail, '\n');
  }

  lemma OpeningWithout(transcript: string)
    requires '\n' !in transcript
    ensures LinesWithout(Opening(transcript), '\n')
  {
    assert '\n' !in "Original Transcript";
    assert '\n' !in "Full Transcript - Grouped by Speaker";
  }

  lemma SummaryBlockWithout(summary: Summary)
    requires '\n' !in summary.outputText
    ensures LinesWithout(SummaryBlock(summary), '\n')
  {
    assert '\n' !in "Summarisation Results";
    assert '\n' !in "Summary Chunks";
  }

  lemma TranslationBlockWithout(translatedText: string)
    requires '\n' !in translatedText
    ensures LinesWithout(TranslationBlock(translatedText), '\n')
  {
    assert '\n' !in "Translation Results";
  }

  lemma LinesWithoutConcat(a: seq<string>, b: seq<string>, c: char)
    requires LinesWithout(a, c) && LinesWithout(b, c)
    ensures LinesWithout(a + b, c)
  {
    forall i | 0 <= i < |a + b| ensures c !in (a + b)[i] {
      if i >= |a| {
        assert (a + b)[i] == b[i - |a|];
      }
    }
  }
}
