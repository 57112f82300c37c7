/**
 * Token-budgeted context assembly: the retrieved documents are walked in
 * the order the retrieval service returned them; the token count of each
 * untrimmed content is added to a running total, the walk stops at the
 * first document that takes the total past the budget, and every document
 * before it contributes its trimmed content followed by a separator line.
 *
 * The tokenizer is a foreign library, so it enters as a parameter
 * `tokens: string -> nat`, about which nothing is assumed.
 */
module ContextAssembly {
  import opened JsText

  /** The budget of the context, in tokens. */
  const MaxContextTokens: nat := 1500

  /** What follows every included document in the context text. */
  const Separator := "\n---\n"

  /** Sum of the token counts of `docs`, in order (the running total). */
  function TokenTotal(docs: seq<string>, tokens: string -> nat): nat
  {
    if docs == [] then 0
    else TokenTotal(docs[..|docs| - 1], tokens) + tokens(docs[|docs| - 1])
  }

  /** What one included document contributes to the context text. */
  function Entry(content: string): string
  {
    Trim(content) + Separator
  }

  /** The context text built from `docs`: the entries of all of them, in order. */
  function ContextText(docs: seq<string>): string
  {
    if docs == [] then ""
    else ContextText(docs[..|docs| - 1]) + Entry(docs[|docs| - 1])
  }

  /** Reference definition of the greedy selection: take the first document
      if its count fits in what is left of the budget, then go on with the
      rest and the budget reduced by that count. The result is a prefix of
      `docs`. */
  function Selected(docs: seq<string>, tokens: string -> nat, budget: nat): (r: seq<string>)
    ensures |r| <= |docs| && r == docs[..|r|]
  {
    if docs == [] || tokens(docs[0]) > budget then []
    else [docs[0]] + Selected(docs[1..], tokens, budget - tokens(docs[0]))
  }

  /** The running total seen from the front. */
  lemma {:induction false} TokenTotalCons(x: string, docs: seq<string>, tokens: string -> nat)
    ensures TokenTotal([x] + docs, tokens) == tokens(x) + TokenTotal(docs, tokens)
  {
    if docs != [] {
      var all := [x] + docs;
      assert all[..|all| - 1] == [x] + docs[..|docs| - 1];
      TokenTotalCons(x, docs[..|docs| - 1], tokens);
    }
  }

  /** A prefix of `docs` stays within the budget exactly when it is no longer
      than the greedy selection. */
  lemma {:induction false} FitsIffSelected(docs: seq<string>, tokens: string -> nat, budget: nat, i: nat)
    requires i <= |docs|
    ensures TokenTotal(docs[..i], tokens) <= budget <==> i <= |Selected(docs, tokens, budget)|
  {
    if i > 0 {
      var rest := docs[1..];
      assert docs[..i] == [docs[0]] + rest[..i - 1];
      TokenTotalCons(docs[0], rest[..i - 1], tokens);
      if tokens(docs[0]) <= budget {
        FitsIffSelected(rest, tokens, budget - tokens(docs[0]), i - 1);
      }
    }
  }

  /** The selected documents, counted untrimmed, stay within the budget. */
  lemma SelectedWithinBudget(docs: seq<string>, tokens: string -> nat, budget: nat)
    ensures TokenTotal(Selected(docs, tokens, budget), tokens) <= budget
  {
    FitsIffSelected(docs, tokens, budget, |Selected(docs, tokens, budget)|);
  }

  /** Greedy stop: when a document is left out, the selection together with
      that first left-out document goes over the budget. */
  lemma SelectedStopsAtOverflow(docs: seq<string>, tokens: string -> nat, budget: nat)
    requires |Selected(docs, tokens, budget)| < |docs|
    ensures TokenTotal(docs[..|Selected(docs, tokens, budget)| + 1], tokens) > budget
  {
    FitsIffSelected(docs, tokens, budget, |Selected(docs, tokens, budget)| + 1);
  }

  /** The selection is the only prefix that fits and is either all of `docs`
      or followed by a document that overflows the budget. */
  lemma SelectionUnique(docs: seq<string>, tokens: string -> nat, budget: nat, k: nat)
    requires k <= |docs| && TokenTotal(docs[..k], tokens) <= budget
    requires k == |docs| || TokenTotal(docs[..k + 1], tokens) > budget
    ensures Selected(docs, tokens, budget) == docs[..k]
  {
    FitsIffSelected(docs, tokens, budget, k);
    if k < |docs| {
      FitsIffSelected(docs, tokens, budget, k + 1);
    }
  }

  /** The context text of a concatenation is the concatenation of the
      context texts: documents are laid out in order, none is dropped. */
  lemma {:induction false} ContextTextAppend(a: seq<string>, b: seq<string>)
    ensures ContextText(a + b) == ContextText(a) + ContextText(b)
  {
    if b == [] {
      assert a + b == a;
    } else {
      var ab, init, last := a + b, b[..|b| - 1], b[|b| - 1];
      assert ab[..|ab| - 1] == a + init;
      calc {
        ContextText(ab);
        ContextText(a + init) + Entry(last);
        { ContextTextAppend(a, init); }
        ContextText(a) + ContextText(init) + Entry(last);
        ContextText(a) + (ContextText(init) + Entry(last));
      }
    }
  }

  /** A single document contributes its trimmed content and a separator. */
  lemma ContextTextSingle(d: string)
    ensures ContextText([d]) == Trim(d) + "\n---\n"
  {
    assert [d][..0] == [];
  }

  /** The context text is empty exactly when no document was selected, that
      is, when there are no documents or the first one alone overflows. */
  lemma EmptyContextIff(docs: seq<string>, tokens: string -> nat)
    ensures ContextText(Selected(docs, tokens, MaxContextTokens)) == ""
        <==> docs == [] || tokens(docs[0]) > MaxContextTokens
  {
    var s := Selected(docs, tokens, MaxContextTokens);
    if s != [] {
      assert |ContextText(s)| >= |Separator|;
    }
  }

  /** The loop of the handler: `tokenCount` accumulates the untrimmed token
      counts, the loop breaks once it exceeds the budget, and otherwise the
      trimmed content and a separator are appended to `contextText`. */
  method AssembleContext(docs: seq<string>, tokens: string -> nat) returns (contextText: string)
    ensures contextText == ContextText(Selected(docs, tokens, MaxContextTokens))
  {
    ghost var k := |Selected(docs, tokens, MaxContextTokens)|;
    var tokenCount: nat := 0;
    contextText := "";
    var i := 0;
    while i < |docs|
      invariant 0 <= i <= k <= |docs|
      invariant tokenCount == TokenTotal(docs[..i], tokens)
      invariant contextText == ContextText(docs[..i])
    {
      var content := docs[i];
      tokenCount := tokenCount + tokens(content);
      assert docs[..i + 1][..i] == docs[..i] && docs[..i + 1][i] == content;
      assert tokenCount == TokenTotal(docs[..i + 1], tokens);
      FitsIffSelected(docs, tokens, MaxContextTokens, i + 1);
      if tokenCount > MaxContextTokens {
        assert i == k;
        break;
      }
      contextText := contextText + Trim(content) + Separator;
      assert Trim(content) + Separator == Entry(content);
      assert contextText == ContextText(docs[..i + 1]);
      i := i + 1;
    }
    assert i == k;
  }
}
