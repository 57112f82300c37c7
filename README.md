# Prompt route of a retrieval-augmented chatbot, in Dafny

This project models the `GET` handler of the chatbot's prompt route. The
handler answers a question in Hungarian from retrieved reference documents.
It reads the `query` search parameter and answers 400 "Bad Request" when it
is missing or empty. Otherwise it embeds the query with its line feeds
replaced by spaces and retrieves up to 10 matching documents. It walks them
in the order returned and keeps a running total of each untrimmed content's
token count. It stops at the first document that takes the total past 1500
tokens. Every document before that one adds its trimmed content and a
`\n---\n` separator to the context text. The prompt is then the instruction
paragraph, `Kontextus::` with the context text, `Kérdés:` with the original
query between triple quotes, and the `Válasz:` anchor. The handler asks for
a completion of it and answers with the completion's identifier and text.

Modules, one per concern of `app/api/prompt/route.ts`:

- `JsText` (`js_text.dfy`): JavaScript's `String.prototype.trim` and the
  replacement of every `\n` by a space.
- `ContextAssembly` (`context_assembly.dfy`): the greedy selection under
  the token budget. `Selected` is a reference definition (take the first
  document if it fits in what is left of the budget, recurse on the rest).
  `AssembleContext` is the handler's loop, proved equal to it.
- `PromptTemplate` (`prompt_template.dfy`): the prompt text.
- `PromptRoute` (`prompt_route.dfy`): the handler. The three remote
  services and the tokenizer are its parameters. It returns the response
  and the list of outbound requests it made.

The tokenizer is the parameter `tokens: string -> nat`. Nothing is assumed
about it, so every property holds for any tokenizer.

The prompt's whitespace follows the two `common-tags` template tags of the
source. `oneLine` joins the four lines of the instruction paragraph with
single spaces. `stripIndent` removes the smallest indentation of the
non-blank lines, and then trims the result. That indentation is zero here,
because the paragraph starts the first line. So the only effect is that
the trim drops the final line feed (`PromptTemplate.PromptLayout`).

Two details of the loop matter for the budget. The token count is that of
the untrimmed content. A document's count is added to the total before the
total is compared with 1500.

## Model

| member | source | states |
|---|---|---|
| `PromptRoute.Get` | app/api/prompt/route.ts:17-111 | An absent or empty `query` gives 400 "Bad Request" and no outbound request. Otherwise exactly three requests go out, in this order. First the embedding request (model `text-embedding-ada-002`) with the query's line feeds replaced. Then the retrieval request with that embedding, threshold 0.5 and count 10. Then the completion request (model `text-davinci-003`, 512 tokens, temperature 0). Its prompt is built from the greedy selection of the retrieved documents and the original query. The response is 200 with the completion's id and text. |
| `JsText.ReplaceNewlines` | app/api/prompt/route.ts:29 | The result has the same length as the input. Every `\n` becomes a space and every other character stays in place. No `\n` remains. |
| `JsText.ReplaceNewlinesFixpoint` | app/api/prompt/route.ts:29 | The replacement leaves a string unchanged exactly when it has no `\n`. Applying it twice is the same as applying it once. |
| `JsText.Trim` | app/api/prompt/route.ts:72 | `content.trim()`. Its meaning is stated by `JsText.TrimSpec`: a slice of the content with only whitespace and line terminators around it and none at either end. |
| `ContextAssembly.TokenTotal` | app/api/prompt/route.ts:57-65 | The running `tokenCount`: the sum of the untrimmed token counts. Related to the selection in both directions by `ContextAssembly.TokenTotalCons` and `ContextAssembly.FitsIffSelected`. |
| `ContextAssembly.ContextText` | app/api/prompt/route.ts:58-72 | The `contextText` string: each document's trimmed content followed by `\n---\n`, in order. Its meaning is stated by `ContextAssembly.ContextTextAppend` and `ContextAssembly.ContextTextSingle`. |
| `PromptTemplate.BuildPrompt` | app/api/prompt/route.ts:75-90 | The prompt text. Its layout is stated by `PromptTemplate.PromptLayout` and `PromptTemplate.PromptParts`. |
| `JsText.TrimStartSpec` | app/api/prompt/route.ts:72 | The leading part of `trim` keeps a suffix that does not start with a whitespace or line-terminator character. Everything it drops is such a character. |
| `JsText.TrimEndSpec` | app/api/prompt/route.ts:72 | The trailing part of `trim` keeps a prefix that does not end with a whitespace or line-terminator character. Everything it drops is such a character. |
| `JsText.TrimSpec` | app/api/prompt/route.ts:72 | `content.trim()` is a contiguous slice of the content with only trimmable characters before and after it. Neither of its ends is trimmable. It is empty exactly when the content is all trimmable. |
| `JsText.TrimIdempotent` | app/api/prompt/route.ts:72 | Trimming a trimmed content changes nothing. |
| `ContextAssembly.Selected` | app/api/prompt/route.ts:61-73 | The greedy selection is a prefix of the retrieved documents, in retrieval order. |
| `ContextAssembly.TokenTotalCons` | app/api/prompt/route.ts:65 | The running total of a list is the first document's count plus the running total of the rest. |
| `ContextAssembly.FitsIffSelected` | app/api/prompt/route.ts:61-70 | A prefix of the documents keeps the running total within the budget if and only if it is no longer than the selection. |
| `ContextAssembly.SelectedWithinBudget` | app/api/prompt/route.ts:64-69 | The untrimmed token counts of the selected documents add up to at most the budget. |
| `ContextAssembly.SelectedStopsAtOverflow` | app/api/prompt/route.ts:65-70 | When a document is left out, the selection plus the first left-out document exceeds the budget. |
| `ContextAssembly.SelectionUnique` | app/api/prompt/route.ts:61-73 | Only one prefix fits the budget and is either the whole list or followed by a document that overflows it. The selection is that prefix. |
| `ContextAssembly.ContextTextAppend` | app/api/prompt/route.ts:72 | The context text of two lists in a row is the context text of the first followed by that of the second. No document is dropped or reordered. |
| `ContextAssembly.ContextTextSingle` | app/api/prompt/route.ts:72 | One document contributes its trimmed content followed by `\n---\n`. |
| `ContextAssembly.EmptyContextIff` | app/api/prompt/route.ts:58-73 | The context text is `""` exactly when there are no documents or the first one alone counts more than 1500 tokens. |
| `ContextAssembly.AssembleContext` | app/api/prompt/route.ts:56-73 | The loop accumulates `tokenCount`, breaks once it exceeds 1500 and otherwise appends the trimmed content and separator. Its result is the context text of the greedy selection. |
| `PromptTemplate.InstructionStart` | app/api/prompt/route.ts:75-80 | The instruction paragraph is non-empty and does not start with a trimmable character, so the outer trim leaves its start alone. |
| `PromptTemplate.PromptLayout` | app/api/prompt/route.ts:75-90 | The prompt is the paragraph, the `Kontextus::` label, the context text, `Kérdés: """`, the query, the closing `"""` and `Válasz:`, in this order. The trim removes only the final line feed. |
| `PromptTemplate.PromptParts` | app/api/prompt/route.ts:75-90 | Gives the position of each part in the prompt. The paragraph is at the start, the context text right after its label, and the query right after the opening quotes. The closing quotes and the anchor end the prompt. |
| `PromptTemplate.PromptInjective` | app/api/prompt/route.ts:82-87 | For a fixed context text, the prompt determines the query. For a fixed query, it determines the context text. |
| `PromptRoute.TwoDocumentsScenario` | app/api/prompt/route.ts:61-73 | With documents of 800 and 900 tokens, only the first is selected. The context is its trimmed content and a separator. |
| `PromptRoute.NoDocumentsScenario` | app/api/prompt/route.ts:75-90 | With no documents retrieved, the prompt is still built, with an empty context section. |

## Left out

- The embedding, retrieval and completion requests (app/api/prompt/route.ts:31-54, 93-103) are remote calls. They are handler parameters, modelled as deterministic functions of their request. Their failures are not modelled: the code does not handle them.
- The embedding vector is a type parameter. Its floating-point contents are not modelled, and neither is the similarity search behind the 0.5 threshold.
- The retrieval result is taken to be present. The code does not handle a null `response.data`.
- The completion's first choice is taken to exist. The code does not check it.
- The GPT-3 tokenizer is a foreign library. It is the parameter `tokens`.
- Reading the `query` parameter from the request URL (percent-decoding included) is not modelled. The handler receives the decoded value or `None`.
- The CORS and cache headers and the JSON serialisation of `{id, text}` (app/api/prompt/route.ts:11-15, 105-111) are transport details. The body is the datatype `Answer(id, text)`.
- Environment and secret loading (app/api/prompt/route.ts:6-9, 31-33) is configuration.
- JavaScript strings are UTF-16. The model works on Unicode code points. All characters that `trim` removes are single code units, so trimming agrees. Lengths agree only for text without characters outside the Basic Multilingual Plane.
- `ContextAssembly.SelectedWithinBudget`: bounds the untrimmed counts, as the code does. It does not bound the token count of the context text itself, because nothing is known about the tokenizer.
- app/page.tsx (a React page that reads a fetched stream), app/layout.tsx and components/question.tsx (presentational markup), and app/api/hello/route.ts (logs the body, returns a constant) are not part of this model.
