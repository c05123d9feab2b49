/**
 * The speaker-grouped rendition of a transcript: the word items of the
 * transcription result are coalesced into one line per maximal run of items
 * that carry the same speaker label.
 */
module SpeakerTurns {
  import opened Text

  /** One entry of the transcription result's `items`: its first alternative's content and its speaker label. */
  datatype WordItem = WordItem(content: string, speakerLabel: string)

  /** One speaker turn: a label and the words spoken in it, in order. */
  datatype Turn = Turn(speakerLabel: string, words: seq<string>)

  /**
   * The turns of an item sequence, built left to right: an item either
   * extends the last turn (same label) or opens a new one.
   */
  function Turns(items: seq<WordItem>): (ts: seq<Turn>)
    ensures |ts| <= |items|
    ensures items == [] <==> ts == []
    ensures items != [] ==> ts[|ts| - 1].speakerLabel == items[|items| - 1].speakerLabel
    decreases |items|
  {
    if items == [] then []
    else
      var prev := Turns(items[..|items| - 1]);
      var x := items[|items| - 1];
      if prev != [] && prev[|prev| - 1].speakerLabel == x.speakerLabel then
        prev[..|prev| - 1] + [Turn(x.speakerLabel, prev[|prev| - 1].words + [x.content])]
      else
        prev + [Turn(x.speakerLabel, [x.content])]
  }

  /** The word items a turn stands for. */
  function Spread(t: Turn): (r: seq<WordItem>)
    ensures |r| == |t.words|
  {
    seq(|t.words|, i requires 0 <= i < |t.words| => WordItem(t.words[i], t.speakerLabel))
  }

  /** The word items a sequence of turns stands for, turn after turn. */
  function Expand(ts: seq<Turn>): seq<WordItem>
  {
    if ts == [] then [] else Expand(ts[..|ts| - 1]) + Spread(ts[|ts| - 1])
  }

  /** Every turn holds at least one word and no two neighbouring turns share a label. */
  ghost predicate WellFormed(ts: seq<Turn>)
  {
    (forall i :: 0 <= i < |ts| ==> ts[i].words != []) &&
    (forall i :: 0 < i < |ts| ==> ts[i - 1].speakerLabel != ts[i].speakerLabel)
  }

  /** The number of places where the label changes between neighbouring items. */
  function LabelChanges(items: seq<WordItem>): nat
    decreases |items|
  {
    if |items| <= 1 then 0
    else
      LabelChanges(items[..|items| - 1]) +
      (if items[|items| - 2].speakerLabel != items[|items| - 1].speakerLabel then 1 else 0)
  }

  /** The contents of the items, in order. */
  function Contents(items: seq<WordItem>): (r: seq<string>)
    ensures |r| == |items|
  {
    seq(|items|, i requires 0 <= i < |items| => items[i].content)
  }

  /** The words of all turns, turn after turn. */
  function AllWords(ts: seq<Turn>): seq<string>
  {
    if ts == [] then [] else AllWords(ts[..|ts| - 1]) + ts[|ts| - 1].words
  }

  /** The line written for one turn: `<label> - <words joined by single spaces>`. */
  function Line(t: Turn): string
  {
    t.speakerLabel + " - " + Join(" ", t.words)
  }

  /** The lines of a sequence of turns, one per turn. */
  function Lines(ts: seq<Turn>): (r: seq<string>)
    ensures |r| == |ts|
  {
    seq(|ts|, i requires 0 <= i < |ts| => Line(ts[i]))
  }

  /**
   * The grouped section: one line per turn; for no items at all, the final
   * flush still writes one line for the empty speaker with no words.
   */
  function SpeakerLines(items: seq<WordItem>): (r: seq<string>)
    ensures items == [] ==> r == [" - "]
    ensures items != [] ==> |r| == |Turns(items)| && 1 <= |r| <= |items|
  {
    if items == [] then [" - "] else Lines(Turns(items))
  }

  /** One more item: Turns grows its last turn or opens a new one. */
  lemma TurnsSnoc(init: seq<WordItem>, x: WordItem)
    ensures var prev := Turns(init);
      Turns(init + [x]) ==
        if prev != [] && prev[|prev| - 1].speakerLabel == x.speakerLabel then
          prev[..|prev| - 1] + [Turn(x.speakerLabel, prev[|prev| - 1].words + [x.content])]
        else
          prev + [Turn(x.speakerLabel, [x.content])]
  {
    assert (init + [x])[..|init|] == init;
  }

  /** One more turn: its items follow those of the turns before it. */
  lemma ExpandSnoc(ts: seq<Turn>, t: Turn)
    ensures Expand(ts + [t]) == Expand(ts) + Spread(t)
  {
    assert (ts + [t])[..|ts|] == ts;
  }

  /** Growing the last turn by one word adds that word's item at the end. */
  lemma ExpandGrow(front: seq<Turn>, last: Turn, x: WordItem)
    requires x.speakerLabel == last.speakerLabel
    ensures Expand(front + [Turn(x.speakerLabel, last.words + [x.content])]) == Expand(front + [last]) + [x]
  {
    var grown := Turn(x.speakerLabel, last.words + [x.content]);
    ExpandSnoc(front, last);
    ExpandSnoc(front, grown);
    assert Spread(grown) == Spread(last) + [x];
  }

  /** A new one-word turn adds its item at the end. */
  lemma ExpandStart(prev: seq<Turn>, x: WordItem)
    ensures Expand(prev + [Turn(x.speakerLabel, [x.content])]) == Expand(prev) + [x]
  {
    ExpandSnoc(prev, Turn(x.speakerLabel, [x.content]));
    assert Spread(Turn(x.speakerLabel, [x.content])) == [x];
  }

  /** Expanding the turns gives the items back. */
  lemma {:induction false} TurnsExpand(items: seq<WordItem>)
    ensures Expand(Turns(items)) == items
    decreases |items|
  {
    if items != [] {
      var init := items[..|items| - 1];
      var x := items[|items| - 1];
      assert items == init + [x];
      var prev := Turns(init);
      TurnsExpand(init);
      TurnsSnoc(init, x);
      if prev != [] && prev[|prev| - 1].speakerLabel == x.speakerLabel {
        var front := prev[..|prev| - 1];
        assert prev == front + [prev[|prev| - 1]];
        ExpandGrow(front, prev[|prev| - 1], x);
      } else {
        ExpandStart(prev, x);
      }
    }
  }

  /** Every turn holds a word and neighbouring turns carry different labels. */
  lemma {:induction false} TurnsWellFormed(items: seq<WordItem>)
    ensures WellFormed(Turns(items))
    decreases |items|
  {
    if items != [] {
      var init := items[..|items| - 1];
      var x := items[|items| - 1];
      assert items == init + [x];
      TurnsWellFormed(init);
      TurnsSnoc(init, x);
      var prev := Turns(init);
      if prev != [] && prev[|prev| - 1].speakerLabel == x.speakerLabel {
        var front := prev[..|prev| - 1];
        var grown := Turn(x.speakerLabel, prev[|prev| - 1].words + [x.content]);
        WellFormedSnoc(front, grown);
      } else {
        WellFormedSnoc(prev, Turn(x.speakerLabel, [x.content]));
      }
    }
  }

  /** A turn may follow a well-formed sequence when it has a word and a new label. */
  lemma WellFormedSnoc(ts: seq<Turn>, t: Turn)
    requires WellFormed(ts) && t.words != []
    requires ts != [] ==> ts[|ts| - 1].speakerLabel != t.speakerLabel
    ensures WellFormed(ts + [t])
  {
  }

  /**
   * Turns are the only well-formed turn sequence that expands to the items:
   * each turn is exactly one maximal run of equal labels.
   */
  lemma {:induction false} TurnsUnique(ts: seq<Turn>, items: seq<WordItem>)
    requires WellFormed(ts)
    requires Expand(ts) == items
    ensures ts == Turns(items)
    decreases |items|
  {
    if ts == [] {
      assert items == [];
    } else {
      var init := ts[..|ts| - 1];
      var t := ts[|ts| - 1];
      var k := |t.words|;
      var x := WordItem(t.words[k - 1], t.speakerLabel);
      assert ts == init + [t];
      assert WellFormed(init);
      if k == 1 {
        assert t == Turn(x.speakerLabel, [x.content]);
        ExpandStart(init, x);
        var front := Expand(init);
        assert items == front + [x];
        TurnsUnique(init, front);
        TurnsSnoc(front, x);
      } else {
        var shorter := Turn(t.speakerLabel, t.words[..k - 1]);
        assert t == Turn(x.speakerLabel, shorter.words + [x.content]);
        ExpandGrow(init, shorter, x);
        var ts' := init + [shorter];
        var front := Expand(ts');
        assert items == front + [x];
        WellFormedSnoc(init, shorter);
        TurnsUnique(ts', front);
        TurnsSnoc(front, x);
        assert ts'[..|ts'| - 1] == init;
      }
    }
  }

  /** For non-empty input there is one turn per label change, plus one. */
  lemma {:induction false} TurnsCount(items: seq<WordItem>)
    requires items != []
    ensures |Turns(items)| == LabelChanges(items) + 1
    decreases |items|
  {
    if |items| > 1 {
      var init := items[..|items| - 1];
      TurnsCount(init);
      assert init[|init| - 1] == items[|items| - 2];
    }
  }

  /** The words of the turns, in order, are exactly the item contents: none dropped, none duplicated. */
  lemma {:induction false} TurnsKeepWords(items: seq<WordItem>)
    ensures AllWords(Turns(items)) == Contents(items)
    decreases |items|
  {
    if items != [] {
      var init := items[..|items| - 1];
      var x := items[|items| - 1];
      TurnsKeepWords(init);
      KeepWordsSnoc(init, x);
      assert items == init + [x];
    }
  }

  /** The induction step of TurnsKeepWords: one more item adds its word at the end. */
  lemma KeepWordsSnoc(init: seq<WordItem>, x: WordItem)
    requires AllWords(Turns(init)) == Contents(init)
    ensures AllWords(Turns(init + [x])) == Contents(init + [x])
  {
    var prev := Turns(init);
    TurnsSnoc(init, x);
    ContentsSnoc(init, x);
    if prev != [] && prev[|prev| - 1].speakerLabel == x.speakerLabel {
      var front := prev[..|prev| - 1];
      var last := prev[|prev| - 1];
      assert prev == front + [last];
      AllWordsSnoc(front, last);
      AllWordsSnoc(front, Turn(x.speakerLabel, last.words + [x.content]));
    } else {
      AllWordsSnoc(prev, Turn(x.speakerLabel, [x.content]));
    }
  }

  lemma ContentsSnoc(init: seq<WordItem>, x: WordItem)
    ensures Contents(init + [x]) == Contents(init) + [x.content]
  {
  }

  /** The words of one more turn follow those of the turns before it. */
  lemma AllWordsSnoc(ts: seq<Turn>, t: Turn)
    ensures AllWords(ts + [t]) == AllWords(ts) + t.words
  {
    assert (ts + [t])[..|ts|] == ts;
  }

  /** An item with the current turn's label extends that turn. */
  lemma TurnsGrow(init: seq<WordItem>, x: WordItem, done: seq<Turn>, speaker: string, buffer: seq<string>)
    requires Turns(init) == done + [Turn(speaker, buffer)]
    requires x.speakerLabel == speaker
    ensures Turns(init + [x]) == done + [Turn(speaker, buffer + [x.content])]
  {
    TurnsSnoc(init, x);
    assert (done + [Turn(speaker, buffer)])[..|done|] == done;
  }

  /** An item with another label closes the current turn and starts a new one. */
  lemma TurnsSwitch(init: seq<WordItem>, x: WordItem, done: seq<Turn>, speaker: string, buffer: seq<string>)
    requires Turns(init) == done + [Turn(speaker, buffer)]
    requires x.speakerLabel != speaker
    ensures Turns(init + [x]) == (done + [Turn(speaker, buffer)]) + [Turn(x.speakerLabel, [x.content])]
  {
    TurnsSnoc(init, x);
  }

  /** The lines of one more turn end with that turn's line. */
  lemma LinesSnoc(ts: seq<Turn>, t: Turn)
    ensures Lines(ts + [t]) == Lines(ts) + [Line(t)]
  {
  }

  /** Every word of a turn, with the turn's label, is one of the items the turns spread back into. */
  lemma {:induction false} ExpandHolds(ts: seq<Turn>, k: int, i: int)
    requires 0 <= k < |ts| && 0 <= i < |ts[k].words|
    ensures WordItem(ts[k].words[i], ts[k].speakerLabel) in Expand(ts)
    decreases |ts|
  {
    var init := ts[..|ts| - 1];
    if k < |ts| - 1 {
      assert ts[k] == init[k];
      ExpandHolds(init, k, i);
    } else {
      assert Spread(ts[k])[i] == WordItem(ts[k].words[i], ts[k].speakerLabel);
    }
  }

  /**
   * The grouped lines hold no character other than a space or a hyphen
   * that no label and no word holds; in particular no newline when the
   * items have none.
   */
  lemma SpeakerLinesWithout(items: seq<WordItem>, d: char)
    requires d != ' ' && d != '-'
    requires forall i :: 0 <= i < |items| ==> d !in items[i].content && d !in items[i].speakerLabel
    ensures forall i :: 0 <= i < |SpeakerLines(items)| ==> d !in SpeakerLines(items)[i]
  {
    if items != [] {
      var ts := Turns(items);
      TurnsExpand(items);
      TurnsWellFormed(items);
      forall k | 0 <= k < |ts|
        ensures d !in Line(ts[k])
      {
        ExpandHolds(ts, k, 0);
        forall i | 0 <= i < |ts[k].words|
          ensures d !in ts[k].words[i]
        {
          ExpandHolds(ts, k, i);
        }
        JoinWithout(" ", ts[k].words, d);
      }
    }
  }

  /**
   * The speaker loop: walks the items once, carrying the current speaker, the
   * words of the current turn and a count of items seen, writes a line
   * whenever the label changes and flushes the last turn after the loop.
   */
  method GroupBySpeaker(items: seq<WordItem>) returns (lines: seq<string>)
    ensures lines == SpeakerLines(items)
  {
    var speaker := "";
    var buffer: seq<string> := [];
    var count := 0;
    lines := [];
    ghost var done: seq<Turn> := [];
    for i := 0 to |items|
      invariant count == i
      invariant i == 0 ==> speaker == "" && buffer == [] && done == []
      invariant i > 0 ==> Turns(items[..i]) == done + [Turn(speaker, buffer)]
      invariant lines == Lines(done)
    {
      var part := items[i];
      ghost var next := if count == 0 then [Turn(part.speakerLabel, [part.content])]
        else if speaker == part.speakerLabel then done + [Turn(speaker, buffer + [part.content])]
        else (done + [Turn(speaker, buffer)]) + [Turn(part.speakerLabel, [part.content])];
      assert Turns(items[..i + 1]) == next by {
        assert items[..i + 1] == items[..i] + [part];
        if count == 0 {
          assert items[..i] == [];
          TurnsSnoc([], part);
        } else if speaker == part.speakerLabel {
          TurnsGrow(items[..i], part, done, speaker, buffer);
        } else {
          TurnsSwitch(items[..i], part, done, speaker, buffer);
        }
      }
      if count == 0 {
        speaker := part.speakerLabel;
      }
      if speaker != part.speakerLabel {
        lines := lines + [speaker + " - " + Join(" ", buffer)];
        LinesSnoc(done, Turn(speaker, buffer));
        done := done + [Turn(speaker, buffer)];
        buffer := [];
        speaker := part.speakerLabel;
      }
      buffer := buffer + [part.content];
      count := count + 1;
      assert next == done + [Turn(speaker, buffer)] by {
        assert [] + [part.content] == [part.content];
        assert [] + next == next;
      }
    }
    lines := lines + [speaker + " - " + Join(" ", buffer)];
    if items == [] {
      assert speaker == "" && buffer == [] && done == [];
      assert Join(" ", buffer) == "";
      assert lines == [] + ["" + " - " + ""];
      assert "" + " - " + "" == " - ";
    } else {
      assert items[..|items|] == items;
      LinesSnoc(done, Turn(speaker, buffer));
      assert lines == Lines(Turns(items));
    }
  }
}
