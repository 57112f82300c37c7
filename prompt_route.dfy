/**
 * The `GET` handler of the prompt route: validate the `query` parameter,
 * embed the query with its line feeds replaced by spaces, retrieve the
 * matching documents, assemble the token-budgeted context, build the
 * prompt around the original query, ask for a completion and answer with
 * its identifier and text.
 *
 * The embedding, retrieval and completion services and the tokenizer are
 * parameters of the handler. Each outbound request is also recorded in a
 * list of calls, so that what the handler asks of each service, and in
 * which order, is part of its result.
 */
module PromptRoute {
  import opened JsText
  import opened ContextAssembly
  import opened PromptTemplate

  datatype Option<T> = None | Some(value: T)

  const EmbeddingModel := "text-embedding-ada-002"
  const SimilarityThreshold: real := 0.5
  const MatchCount: nat := 10
  const CompletionModel := "text-davinci-003"
  const MaxCompletionTokens: nat := 512
  const Temperature: real := 0.0

  /** An outbound request of the handler; `E` is the type of an embedding. */
  datatype Call<E> =
    | CreateEmbedding(model: string, input: string)
    | MatchDocuments(queryEmbedding: E, similarityThreshold: real, matchCount: nat)
    | CreateCompletion(model: string, prompt: string, maxTokens: nat, temperature: real)

  /** What the completion service answers: an identifier and the text of
      the first choice. */
  datatype Completion = Completion(id: string, text: string)

  /** A plain-text body, or the JSON object `{id, text}`. */
  datatype Body = Text(text: string) | Answer(id: string, text: string)

  datatype Response = Response(status: nat, body: Body)

  const BadRequest := Response(400, Text("Bad Request"))

  /** The handler. `query` is the `query` search parameter (None when it is
      absent); `embed`, `matchDocuments` and `complete` stand for the three
      remote services and `tokens` for the tokenizer's count. An absent or
      empty query is answered with 400 before any request goes out;
      otherwise exactly three requests go out, in order: the embedding of
      the single-line query, the retrieval with that embedding, and the
      completion of the prompt built from the selected documents and the
      original query. */
  method Get<E>(
    query: Option<string>,
    embed: string -> E,
    matchDocuments: (E, real, nat) -> seq<string>,
    complete: string -> Completion,
    tokens: string -> nat
  ) returns (response: Response, calls: seq<Call<E>>)
    ensures query.None? || query.value == "" ==> response == BadRequest && calls == []
    ensures query.Some? && query.value != "" ==>
      var input := ReplaceNewlines(query.value);
      var documents := matchDocuments(embed(input), SimilarityThreshold, MatchCount);
      var prompt := BuildPrompt(ContextText(Selected(documents, tokens, MaxContextTokens)), query.value);
      && calls == [
           CreateEmbedding(EmbeddingModel, input),
           MatchDocuments(embed(input), SimilarityThreshold, MatchCount),
           CreateCompletion(CompletionModel, prompt, MaxCompletionTokens, Temperature)]
      && response == Response(200, Answer(complete(prompt).id, complete(prompt).text))
  {
    if query.None? || query.value == "" {
      return BadRequest, [];
    }
    var q := query.value;
    var input := ReplaceNewlines(q);
    var embedding := embed(input);
    calls := [CreateEmbedding(EmbeddingModel, input)];
    var documents := matchDocuments(embedding, SimilarityThreshold, MatchCount);
    calls := calls + [MatchDocuments(embedding, SimilarityThreshold, MatchCount)];
    var contextText := AssembleContext(documents, tokens);
    var prompt := BuildPrompt(contextText, q);
    var completion := complete(prompt);
    calls := calls + [CreateCompletion(CompletionModel, prompt, MaxCompletionTokens, Temperature)];
    response := Response(200, Answer(completion.id, completion.text));
  }

  /** Two documents of 800 and 900 tokens: only the first one fits in the
      budget, so the context holds its trimmed content alone. */
  lemma TwoDocumentsScenario(d1: string, d2: string, tokens: string -> nat)
    requires tokens(d1) == 800 && tokens(d2) == 900
    ensures Selected([d1, d2], tokens, MaxContextTokens) == [d1]
    ensures ContextText(Selected([d1, d2], tokens, MaxContextTokens)) == Trim(d1) + "\n---\n"
  {
    assert [d1, d2][1..] == [d2];
    ContextTextSingle(d1);
  }

  /** No document retrieved: the prompt is still built, with an empty
      context between the context label and the question. */
  lemma NoDocumentsScenario(query: string, tokens: string -> nat)
    ensures BuildPrompt(ContextText(Selected([], tokens, MaxContextTokens)), query)
         == Instruction + ContextHead + QuestionHead + query + QuestionTail
  {
    PromptLayout("", query);
    assert Instruction + ContextHead + "" == Instruction + ContextHead;
  }
}
