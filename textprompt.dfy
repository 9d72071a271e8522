/** The text prompt form: a prompt, a negative prompt, a status line, a
    word counter under the prompt, and the Clear and Generate buttons. */
module TextPrompt {
  import opened JsStrings

  const EmptyPromptMessage: string := "Please enter a text prompt first."
  const PreparedMessage: string :=
    "Request prepared. Once the backend is connected, this prompt will be sent to the reconstruction pipeline."

  /** `prompt.trim().split(/\s+/).filter(Boolean).length`: the number of
      maximal runs of non-white-space characters. */
  function WordCount(prompt: string): (n: nat)
    ensures n == RunCount(prompt)
  {
    TrimmedWordsAreRuns(prompt);
    |Compact(SplitWs(Trim(prompt)))|
  }

  /** An empty or all-white-space prompt has no words, and only those. */
  lemma WordCountZero(prompt: string)
    ensures WordCount(prompt) == 0 <==> AllSpace(prompt)
  {
    RunCountZeroIffSpace(prompt);
  }

  /** White space added before or after the prompt does not change the count. */
  lemma WordCountIgnoresPadding(lead: string, prompt: string, trail: string)
    requires AllSpace(lead) && AllSpace(trail)
    ensures WordCount(lead + prompt + trail) == WordCount(prompt)
  {
    TrimIgnoresPadding(lead, prompt, trail);
  }

  /** Words joined by single spaces count as that many words. */
  lemma WordCountOfJoin(ws: seq<string>)
    requires |ws| >= 1
    requires forall i :: 0 <= i < |ws| ==> IsWord(ws[i])
    ensures WordCount(Join(ws, ' ')) == |ws|
  {
    JoinedWords(ws);
    CompactOfWords(ws);
  }

  lemma {:induction false} CompactOfWords(ws: seq<string>)
    requires forall i :: 0 <= i < |ws| ==> IsWord(ws[i])
    ensures Compact(ws) == ws
  {
    if ws != [] {
      CompactOfWords(ws[1..]);
      assert ws == [ws[0]] + ws[1..];
    }
  }

  class Form {
    var prompt: string
    var negativePrompt: string
    /** The status line; None when hidden. */
    var status: Option<string>

    constructor()
      ensures prompt == [] && negativePrompt == [] && status.None?
    {
      prompt := [];
      negativePrompt := [];
      status := None;
    }

    /** The number the counter shows. */
    function Words(): nat
      reads this
    {
      WordCount(prompt)
    }

    method EditPrompt(text: string)
      modifies this
      ensures prompt == text && negativePrompt == old(negativePrompt) && status == old(status)
    {
      prompt := text;
    }

    method EditNegativePrompt(text: string)
      modifies this
      ensures negativePrompt == text && prompt == old(prompt) && status == old(status)
    {
      negativePrompt := text;
    }

    method Clear()
      modifies this
      ensures prompt == [] && negativePrompt == [] && status.None?
      ensures Words() == 0
    {
      prompt := [];
      negativePrompt := [];
      status := None;
    }

    /** A blank prompt only sets the reminder; any other prompt is
        prepared. Neither prompt is changed. */
    method Generate()
      modifies this
      ensures prompt == old(prompt) && negativePrompt == old(negativePrompt)
      ensures AllSpace(prompt) ==> status == Some(EmptyPromptMessage)
      ensures !AllSpace(prompt) ==> status == Some(PreparedMessage)
    {
      TrimEmptyIffAllSpace(prompt);
      if Trim(prompt) == [] {
        status := Some(EmptyPromptMessage);
        return;
      }
      status := Some(PreparedMessage);
    }
  }
}
