/**
 * The completion prompt: an instruction paragraph, the context text under
 * the label `Kontextus::`, the original query between triple quotes after
 * `Kérdés:`, and the anchor `Válasz:` where the answer is to be generated.
 *
 * The source writes it as a `stripIndent` template whose first line is the
 * paragraph produced by a `oneLine` template. `oneLine` joins the four
 * lines of the paragraph with single spaces (that is `Instruction`);
 * `stripIndent` removes the smallest indentation of the non-blank lines,
 * which is zero here because the paragraph starts the first line, and then
 * trims the whole text.
 */
module PromptTemplate {
  import opened JsText

  /** The instruction paragraph, as `oneLine` renders it. Its first word is
      a literal of its own so that its first letter is evident to the prover. */
  const Instruction :=
    "Egy" + " chatbot vagy ami magyarorszák kormányának álláspontját képviseli. Az a feladatot, hogy kérdéseket "
    + "válaszolj meg azok alapján az információk alapján, amit a kérdés előtt kapsz kontextusként, de ezeken "
    + "kívül bármilyen más információt is felhasználhatsz. A válaszok stílusa legyen informális. Nem kell figyelned "
    + "az objektivitásra, mivel a feladatod, hogy a kormányt képviseld."

  /** Between the paragraph and the context text. */
  const ContextHead := "\n\n  Kontextus::\n  "

  /** Between the context text and the query. */
  const QuestionHead := "\n\n  Kérdés: \"\"\"\n  "

  /** After the query, up to the answer anchor. */
  const QuestionTail := "\n  \"\"\"\n\n  Válasz:"

  /** The text of the outer template literal once both substitutions are
      made, before `stripIndent` post-processes it. */
  function RawPrompt(contextText: string, query: string): string
  {
    Instruction + ContextHead + contextText + QuestionHead + query + QuestionTail + "\n"
  }

  /** The prompt sent for completion: the raw text, trimmed (removing the
      zero-width common indentation changes nothing). */
  function BuildPrompt(contextText: string, query: string): string
  {
    Trim(RawPrompt(contextText, query))
  }

  /** The paragraph does not start with a character `trim` removes. */
  lemma InstructionStart()
    ensures Instruction != [] && !IsTrimmable(Instruction[0])
  {
    assert Instruction[0] == "Egy"[0];
  }

  /** Trimming removes only the final line feed: the prompt is the paragraph,
      the context label, the context text, the question label with the query
      between triple quotes, and the answer anchor, in this order. */
  lemma PromptLayout(contextText: string, query: string)
    ensures BuildPrompt(contextText, query)
         == Instruction + ContextHead + contextText + QuestionHead + query + QuestionTail
  {
    var body := Instruction + ContextHead + contextText + QuestionHead + query + QuestionTail;
    var raw := body + "\n";
    assert RawPrompt(contextText, query) == raw;
    InstructionStart();
    assert raw[0] == Instruction[0];
    assert TrimStart(raw) == raw;
    assert raw[..|raw| - 1] == body;
    assert body[|body| - 1] == QuestionTail[|QuestionTail| - 1] == ':';
    assert TrimEnd(body) == body;
  }

  /** Slicing six concatenated strings at the borders gives them back. */
  lemma ConcatSlices(a: string, b: string, c: string, d: string, e: string, f: string)
    ensures var s := a + b + c + d + e + f;
            var i := |a| + |b|;
            var j := i + |c| + |d|;
            && |s| == j + |e| + |f|
            && s[..|a|] == a && s[|a|..i] == b && s[i..i + |c|] == c
            && s[i + |c|..j] == d && s[j..j + |e|] == e && s[j + |e|..] == f
  {
  }

  /** Where each part sits in the prompt: the paragraph at the start, the
      context text right after its label, the query right after the opening
      quotes, and the closing quotes with the anchor at the end. */
  lemma PromptParts(contextText: string, query: string)
    ensures var p := BuildPrompt(contextText, query);
            var c := |Instruction| + |ContextHead|;
            var q := c + |contextText| + |QuestionHead|;
            && |p| == q + |query| + |QuestionTail|
            && p[..|Instruction|] == Instruction
            && p[|Instruction|..c] == ContextHead
            && p[c..c + |contextText|] == contextText
            && p[c + |contextText|..q] == QuestionHead
            && p[q..q + |query|] == query
            && p[q + |query|..] == QuestionTail
  {
    PromptLayout(contextText, query);
    ConcatSlices(Instruction, ContextHead, contextText, QuestionHead, query, QuestionTail);
  }

  /** Concatenation regrouped around its third part. */
  lemma Regroup(a: string, b: string, c: string, d: string, e: string, f: string)
    ensures a + b + c + d + e + f == (a + b) + c + (d + e + f)
  {
  }

  /** Two strings with the same text around them are equal. */
  lemma MiddleDetermined(pre: string, m1: string, m2: string, post: string)
    requires pre + m1 + post == pre + m2 + post
    ensures m1 == m2
  {
    var s := pre + m1 + post;
    assert s[|pre|..|pre| + |m1|] == m1;
    assert s[|pre|..|pre| + |m2|] == m2;
  }

  /** For a given context text the prompt determines the query, and for a
      given query it determines the context text. */
  lemma PromptInjective(c1: string, q1: string, c2: string, q2: string)
    requires BuildPrompt(c1, q1) == BuildPrompt(c2, q2)
    requires c1 == c2 || q1 == q2
    ensures c1 == c2 && q1 == q2
  {
    PromptLayout(c1, q1);
    PromptLayout(c2, q2);
    if c1 == c2 {
      MiddleDetermined(Instruction + ContextHead + c1 + QuestionHead, q1, q2, QuestionTail);
    } else {
      Regroup(Instruction, ContextHead, c1, QuestionHead, q1, QuestionTail);
      Regroup(Instruction, ContextHead, c2, QuestionHead, q1, QuestionTail);
      MiddleDetermined(Instruction + ContextHead, c1, c2, QuestionHead + q1 + QuestionTail);
    }
  }
}
