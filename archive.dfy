/**
 * The archived note: sentence splitting on the Japanese full stop
 * (`split_sentences`) and the Markdown note template (`convert_md`).
 */
module Archive {

  /** The Japanese full stop, after which a line break is inserted. */
  const Stop: char := '。'

  /** The number of full stops in a text. */
  function CountStops(s: string): nat {
    if s == [] then 0 else (if s[0] == Stop then 1 else 0) + CountStops(s[1..])
  }

  /** `split_sentences`: `text.replace("。", "。\n")`. */
  function SplitSentences(text: string): (r: string)
    ensures |r| == |text| + CountStops(text)
  {
    if text == [] then []
    else (if text[0] == Stop then [Stop, '\n'] else [text[0]]) + SplitSentences(text[1..])
  }

  /** Deletes the line break that follows each full stop: the inverse of splitting. */
  function JoinSentences(t: string): (r: string)
    ensures |r| <= |t|
  {
    if |t| >= 2 && t[0] == Stop && t[1] == '\n' then [Stop] + JoinSentences(t[2..])
    else if t == [] then []
    else [t[0]] + JoinSentences(t[1..])
  }

  /** Text without a full stop is returned unchanged. */
  lemma {:induction false} SplitWithoutStop(text: string)
    requires Stop !in text
    ensures SplitSentences(text) == text
  {
    if text != [] {
      assert Stop !in text[1..] by {
        assert forall i :: 0 <= i < |text[1..]| ==> text[1..][i] == text[i + 1];
      }
      SplitWithoutStop(text[1..]);
    }
  }

  /** Every full stop of `r` is immediately followed by a line break. */
  predicate StopsEndLines(r: string) {
    forall i :: 0 <= i < |r| && r[i] == Stop ==> i + 1 < |r| && r[i + 1] == '\n'
  }

  /** Every full stop of the result is immediately followed by a line break. */
  lemma {:induction false} SplitStopThenNewline(text: string)
    ensures StopsEndLines(SplitSentences(text))
  {
    if text != [] {
      SplitStopThenNewline(text[1..]);
      var piece := if text[0] == Stop then [Stop, '\n'] else [text[0]];
      var rest := SplitSentences(text[1..]);
      var r := SplitSentences(text);
      assert StopsEndLines(rest);
      assert r == piece + rest;
      forall i | 0 <= i < |r| && r[i] == Stop
        ensures i + 1 < |r| && r[i + 1] == '\n'
      {
        if i >= |piece| {
          var j := i - |piece|;
          assert rest[j] == Stop;
          assert j + 1 < |rest| && rest[j + 1] == '\n';
          assert r[i + 1] == rest[j + 1];
        } else {
          assert r[i] == piece[i];
        }
      }
    }
  }

  /** Splitting works character by character, so it distributes over concatenation. */
  lemma {:induction false} SplitAppend(a: string, b: string)
    ensures SplitSentences(a + b) == SplitSentences(a) + SplitSentences(b)
  {
    if a == [] {
      assert a + b == b;
    } else {
      assert (a + b)[1..] == a[1..] + b;
      SplitAppend(a[1..], b);
    }
  }

  /** Deleting each inserted line break recovers the input. */
  lemma {:induction false} JoinSplit(text: string)
    ensures JoinSentences(SplitSentences(text)) == text
  {
    if text != [] {
      var rest := SplitSentences(text[1..]);
      JoinSplit(text[1..]);
      if text[0] == Stop {
        assert SplitSentences(text) == [Stop, '\n'] + rest;
        assert (([Stop, '\n'] + rest)[2..]) == rest;
      } else {
        assert SplitSentences(text) == [text[0]] + rest;
        assert ([text[0]] + rest)[1..] == rest;
      }
    }
  }

  /** Different texts are split into different texts. */
  lemma SplitInjective(a: string, b: string)
    requires SplitSentences(a) == SplitSentences(b)
    ensures a == b
  {
    JoinSplit(a);
    JoinSplit(b);
  }

  /** The note text before the link line. */
  const NoteFront: string := "\n---\ntags: 💻 \n---\n#💻 \n\n### リンク\n"

  /** The note text between the link line and the summary. */
  const SummaryHeading: string := "\n\n### 概要\n"

  /** The note text after the summary: an empty section for notes of one's own. */
  const NoteTrailer: string := "\n\n### わかったこと\n\n\n"

  /** The Markdown link `[title](url)`. */
  function LinkLine(title: string, url: string): string {
    "[" + title + "](" + url + ")"
  }

  /** `convert_md(summary, url, title)`. */
  function ConvertMd(summary: string, url: string, title: string): string {
    NoteFront + LinkLine(title, url) + SummaryHeading + SplitSentences(summary) + NoteTrailer
  }

  /** Where the summary starts in a note with this title and URL. */
  function SummaryStart(title: string, url: string): nat {
    |NoteFront| + |LinkLine(title, url)| + |SummaryHeading|
  }

  /**
   * The note holds `[title](url)` on a line of its own, directly after the
   * link heading, and its summary section holds the split summary.
   */
  lemma ConvertMdLayout(summary: string, url: string, title: string)
    ensures var note := ConvertMd(summary, url, title);
      var link := LinkLine(title, url);
      var start := SummaryStart(title, url);
      && |note| == start + |SplitSentences(summary)| + |NoteTrailer|
      && note[..|NoteFront|] == NoteFront
      && note[|NoteFront| - 1] == '\n'
      && note[|NoteFront|..|NoteFront| + |link|] == link
      && note[|NoteFront| + |link|] == '\n'
      && note[start..|note| - |NoteTrailer|] == SplitSentences(summary)
      && note[|note| - |NoteTrailer|..] == NoteTrailer
  {
  }

  /** Reading back the summary section of a note recovers the summary. */
  lemma ConvertMdRecoversSummary(summary: string, url: string, title: string)
    ensures var note := ConvertMd(summary, url, title);
      JoinSentences(note[SummaryStart(title, url)..|note| - |NoteTrailer|]) == summary
  {
    ConvertMdLayout(summary, url, title);
    JoinSplit(summary);
  }

  /** For a given title and URL, the note determines the summary it was rendered from. */
  lemma ConvertMdInjective(s1: string, s2: string, url: string, title: string)
    requires ConvertMd(s1, url, title) == ConvertMd(s2, url, title)
    ensures s1 == s2
  {
    ConvertMdRecoversSummary(s1, url, title);
    ConvertMdRecoversSummary(s2, url, title);
  }
}
