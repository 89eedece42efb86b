# WhatsApp keyword-routing bot: a Dafny model

This project models the core of a WhatsApp bot. The bot receives chat messages
from the Meta webhook. It routes each text message by keyword to one of three
agents: restaurant, weather or general. The chosen agent wraps the message in
its prompt template and asks a generative language model (Gemini) for a reply.
The reply goes back to the sender through the WhatsApp send-message API. When
the model call fails, the agent replies with an error line that names it.

The model covers five pieces of `main.py`:

- `text.dfy`: the string operations the bot uses.
  - `str.lower()` on ASCII letters.
  - The substring test `word in text`, as an executable search (`Contains`)
    proved equal to an index-based reference definition (`Occurs`).
  - `str.strip()` with Python's full `isspace` character set.
- `maybe.dfy`: an `Option` type standing for Python's `None`.
- `seqs.dfy`: generic facts about sequence concatenation that the handler's
  proofs cite.
- `router.dfy`: `get_agent`, written as `Classify`, returns a `Category`.
  Restaurant keywords are tried first, then weather keywords. Matching is a
  substring test on the lower-cased text, so "border" matches "order". Empty
  text and unmatched text go to `General`.
- `agents.dfy`: the three agent classes as one function over `Category`.
  - `BuildPrompt` fills a category's template with the message, verbatim.
  - The generator is an oracle `(call number, prompt) -> Ok(text) | Err(detail)`.
  - `Process` returns the generated text on success. On failure it returns
    `"<Name> agent error: <detail>"`.
- `verification.dfy`: the GET handshake `verify_webhook`. The query
  arguments and the configured token are optional values, as in Python.
- `webhook.dfy`: the POST handler `webhook`.
  - The JSON body is a nested datatype: payload, entries, changes, messages.
  - `HandleDelivery` walks it with three nested loops, as the source does.
  - It is proved to make exactly the sends that
    `Replies(Selected(PayloadMessages(p)), Reply(generate), 0)` lists:
    one per answerable message, in payload order, to that message's sender.
    An answerable message has type "text" and a non-blank body.
  - The loops are three methods, one per level. Each continues the sends
    already made, so the nesting of the source is kept.
  - The send API is an oracle whose answer the handler ignores, so the proved
    result holds whichever sends fail.

`verify_webhook` echoes the challenge only when the token matches and
`hub.mode == "subscribe"` (main.py:134); the model keeps both conditions.

Where each source function lives in the model, and which lemma states its
contract:

| source | Dafny function | contract stated by |
|---|---|---|
| `get_agent` (main.py:73-89) | `Router.Classify` | `Router.ClassifySpec` |
| `any(word in message_lower ...)` (main.py:81, 86) | `Router.AnyContained` | `Router.AnyContainedIffMentions` |
| `word in text` (main.py:81, 86) | `Text.Contains` | `Text.ContainsIffOccurs` |
| `message.lower()` (main.py:77) | `Text.ToLower` | its own `ensures`, `Text.ToLowerIdempotent` |
| `message_body.strip()` (main.py:193) | `Text.Strip`, `Text.IsBlank` | `Text.StripSpec`, `Text.BlankIffAllSpace` |
| the three prompt templates (main.py:29-35, 44-50, 59-65) | `Agents.BuildPrompt` | `Agents.PromptContents`, `Agents.MessageOfBuildPrompt`, `Agents.BuildPromptInjective` |
| the three `process` methods (main.py:36-40, 51-55, 66-70) | `Agents.Process` | its own `ensures`, `Agents.FailureReply` |
| `verify_webhook` (main.py:127-139) | `Verification.VerifyWebhook` | its own `ensures` |
| `not data` (main.py:155) | `Webhook.IsEmptyObject` | `Webhook.HandleDelivery` |
| `field == 'messages' and 'messages' in value`, then `value.get('messages', [])` (main.py:170-172) | `Webhook.ChangeMessages` | `Webhook.WalkChanges`, `Webhook.StatusChangeAddsNothing` |
| `message.get('text', {}).get('body', '')` (main.py:187-188) | `Webhook.BodyOf` | `Webhook.AnswerableIff` |
| the per-message reply: `get_agent`, `agent.process`, send to `from_number` (main.py:196-207) | `Webhook.ReplyTo` | `Agents.Process`, `Router.ClassifySpec`, `Webhook.SingleTextMessage` |
| the message filter of `webhook` (main.py:186-194) | `Webhook.Answerable`, `Webhook.Selected` | `Webhook.AnswerableIff`, `Webhook.SelectedMembers`, `Webhook.SelectedAppend` |
| `webhook` (main.py:143-221) | `Webhook.HandleDelivery` and its three loops | their own `ensures`, `Webhook.RepliesSpec` |

## Model

| member | source | states |
|---|---|---|
| Text.ToLower | main.py:77 | the lower-cased text has the same length, contains no upper-case ASCII letter, and differs from the input only where an upper-case letter became its lower-case partner |
| Text.ToLowerIdempotent | main.py:77 | lower-casing an already lower-cased text changes nothing |
| Text.ContainsIffOccurs | main.py:81 | the left-to-right search for `word in text` succeeds exactly when the word is a contiguous slice of the text |
| Text.SkipSpaces | main.py:193 | the left scan of `strip()` passes only whitespace and stops at the end or at the first character that is not whitespace |
| Text.BackSpaces | main.py:193 | the right scan of `strip()` passes only whitespace and stops at its lower bound or after the last character that is not whitespace |
| Text.StripSpec | main.py:193 | the stripped text is a slice of the input with only whitespace on either side, and it is empty or neither starts nor ends with whitespace |
| Text.BlankIffAllSpace | main.py:193 | `not body.strip()` holds exactly when every character of the body is whitespace |
| Text.LowerKeepsSpace | main.py:77 | lower-casing leaves whitespace as whitespace and creates none |
| Router.AnyContainedIffMentions | main.py:80-87 | the `any(word in text ...)` scan over a keyword list succeeds exactly when some keyword of the list occurs in the text |
| Router.NothingMentionedInEmpty | main.py:74-75 | no non-empty keyword occurs in the empty text |
| Router.ClassifySpec | main.py:73-89 | empty text goes to General; the result is Restaurant exactly when a restaurant keyword occurs in the lower-cased text; Weather exactly when none does and a weather keyword does; General exactly when neither list matches |
| Router.ClassifyIgnoresCase | main.py:77-87 | two texts with the same lower-cased form are routed to the same agent |
| Router.ClassifyOfLower | main.py:77 | routing the lower-cased text gives the same agent as routing the text |
| Router.RestaurantWinsTies | main.py:80-87 | a text containing both a restaurant and a weather keyword goes to Restaurant |
| Router.RoutedToRestaurant | main.py:80-82 | a message whose lower-cased text contains a restaurant keyword goes to Restaurant |
| Router.RoutedToWeather | main.py:80-87 | a message whose lower-cased text contains a weather keyword and no restaurant keyword goes to Weather |
| Router.RoutedToGeneral | main.py:80-89 | a message whose lower-cased text contains no keyword of either list goes to General |
| Router.NoneMentioned | main.py:81 | a keyword list none of whose words fits in the text, each lacking some character of it, is not mentioned by the text |
| Router.SubstringNotWord | main.py:80-81 | "border" and "Chairs" go to Restaurant, because matching is by substring and not by whole word |
| Router.WeatherPhraseRouting | main.py:84-87 | "mausam kaisa hai" goes to Weather |
| Router.UpperCaseRouting | main.py:77-82 | "PIZZA" goes to Restaurant |
| Router.MixedRouting | main.py:80-87 | "barish mein chai" goes to Restaurant even though "barish" is a weather keyword |
| Router.UnmatchedRouting | main.py:89 | "hello" falls through both lists to General |
| Agents.PromptContents | main.py:29-65 | every prompt contains the user's message verbatim, the category's persona ("Pakistani restaurant assistant", "Pakistani weather assistant", "helpful Pakistani assistant"), the 100-word limit and the "Reply in Roman Urdu" instruction |
| Agents.MessageOf | main.py:29-35 | a message read back from a prompt rebuilds exactly that prompt |
| Agents.MessageOfBuildPrompt | main.py:33 | the message is inserted without change: reading it back from the built prompt returns it unchanged |
| Agents.HeadsDiverge | main.py:30-60 | the templates of two different agents disagree within the persona, so a prompt starts with at most one agent's template |
| Agents.BuildPromptInjective | main.py:29-65 | a prompt determines both its category and the message it was built from |
| Agents.Respond | main.py:36-40 | on success the reply is exactly the generated text; on failure the reply reads back as the failing agent's category and the exception detail |
| Agents.ErrorReplyOfRespond | main.py:36-70 | the error line `"<Name> agent error: <detail>"` of each agent reads back as that agent's category and the detail, so the three error lines cannot be confused |
| Agents.Process | main.py:36-70 | the agent calls the generator with its built prompt; on success it answers with the generated text, on failure with its own error line carrying the detail |
| Agents.ProcessAsksOnlyTheBuiltPrompt | main.py:37 | the reply depends on the generator only through its answer to the built prompt |
| Agents.FailureReply | main.py:39-40 | when the generator call fails, the reply is the agent's class-name stem, " agent error: " and the exception's detail |
| Agents.WeatherFailureReply | main.py:51-55 | a message routed to the weather agent whose generator call fails is answered with "Weather agent error: " followed by the detail |
| Verification.VerifyWebhook | main.py:134-139 | the handshake answers 200 with the challenge exactly when the mode is "subscribe" and the presented token equals the configured one (absent equals absent); otherwise it answers "Forbidden" with 403 |
| Verification.UnsetTokenAcceptsTokenlessRequest | main.py:134-136 | with no token configured, a subscribe request carrying no token is accepted with 200 |
| Verification.VerifyWebhookConfigured | main.py:134-139 | the corrected handshake accepts only when a token is configured and presented; it always refuses when none is configured |
| Verification.ConfiguredAgreesWhenSet | main.py:134-139 | once a token is configured, the corrected handshake answers every request as the written one does |
| Verification.ConfiguredAcceptsExactly | main.py:134-139 | the corrected handshake accepts exactly the subscribe requests that present the configured token |
| Verification.HandshakeSamples | main.py:134-139 | the right token with challenge "123" gives "123" and 200; a wrong token gives 403 |
| Webhook.HandleDelivery | main.py:143-221 | an absent or empty body gives 400 "no_data" and no sends; any other body gives 200 "received" and one send per answerable message, in payload order, to that message's sender, with the reply its agent gives using the next generator call, whatever the send API answers |
| Webhook.WalkEntries | main.py:160-162 | the entry loop adds exactly the sends called for by the messages of all entries, in order |
| Webhook.WalkChanges | main.py:162-172 | the change loop adds exactly the sends called for by the messages of the "messages" changes that carry a message list |
| Webhook.AnswerMessages | main.py:174-212 | the message loop skips non-text and blank messages and adds one send per remaining message, in order |
| Webhook.RepliesSpec | main.py:174-207 | the batch calls for as many sends as selected messages, and the `j`-th send answers the `j`-th of them as reply number `k + j` |
| Webhook.RepliesAppend | main.py:160-207 | the sends for two batches one after the other are the first batch's followed by the second's, numbered on from the first |
| Webhook.OneMessageReplies | main.py:186-207 | one message calls for its reply when it is answerable and for nothing otherwise |
| Webhook.AnswerStep | main.py:186-207 | appending the reply to an answerable message, and nothing for any other, continues the sends by exactly those that message calls for |
| Webhook.ContinueReplies | main.py:160-207 | continuing the sends for some messages with the sends for the next ones gives the sends for both, in order |
| Webhook.EntriesStep | main.py:160-161 | the messages of the first `i + 1` entries are those of the first `i` followed by those of entry `i` |
| Webhook.ChangesStep | main.py:162-172 | the messages of the first `c + 1` changes are those of the first `c` followed by those of change `c` |
| Webhook.AnswerableIff | main.py:186-194 | a message is answered exactly when its type is "text" and its body has a non-whitespace character |
| Webhook.SelectedMembers | main.py:185-194 | the selected messages are exactly the answerable messages of the batch, and there are no more of them than messages |
| Webhook.SelectedAppend | main.py:161-174 | selecting from two batches one after the other gives the concatenation of the two selections, so reply order follows payload order |
| Webhook.ChangesMessagesAppend | main.py:163-172 | the messages of consecutive changes are the concatenation of each part's messages |
| Webhook.StatusChangeAddsNothing | main.py:214-218 | a status update, or any change that is not a "messages" change with a message list, adds no message wherever it sits |
| Webhook.SingleMessageSends | main.py:160-207 | a delivery whose one change lists one answerable message calls for exactly the reply to that message |
| Webhook.SingleTextMessage | main.py:186-207 | a delivery with one text message whose body mentions a restaurant keyword calls for exactly one send, to its sender, with the restaurant agent's reply made by the first generator call |

## Left out

- Text.ToLower: lower-cases ASCII letters only. Python's `str.lower()` also maps non-ASCII letters, some to longer strings. Routing of non-ASCII text is modelled only as far as ASCII lower-casing goes.
- The Gemini client setup and `generate_content` (main.py:22-24) are foreign calls. The generator is an oracle parameter, and an exception is its `Err` result carrying `str(e)`.
- The HTTP POST in `send_whatsapp_message` and the handling of its response (main.py:92-123) are network I/O. A send is recorded as its recipient and text; its success flag is an oracle the handler ignores, as the source does.
- Flask routing, request and response objects, and JSON parsing are not modelled. The handler receives the parsed body as a value, with `None` standing for a `None` returned by `request.get_json()`. Whether a request that is not JSON gives `None` or raises (and so ends in the 500 handler of main.py:223-227) depends on the Flask version; that choice is outside the model.
- Bodies that are not JSON objects are not modelled. Neither are `entry`, `changes` or `messages` values that are not lists, a null `value` or `text`, or a non-string `body`. In Python some of these shapes raise, for instance a list of numbers under `entry` (`'changes' in 1` is a `TypeError`) or a null `text` (`None.get`), and end in the catch-all 500 handler (main.py:223-227). Others are walked as strings or dictionary keys and end in 200 "received": a JSON list body such as `[1]` passes `not data` (main.py:155) and fails `'entry' in data` (main.py:160), and `{"entry": {"x": 1}}` iterates the key `"x"`, in which `'changes'` does not occur (main.py:161-162). The 500 handler itself is not modelled because it rests on Python's exception semantics.
- Flask's reaction to a successful handshake whose challenge is absent is not modelled: `VerifyWebhook` then returns an absent body with 200.
- Message ids (main.py:183) and status contents (main.py:218) are only logged. Timestamps and contacts are read and never used (main.py:171, 179). None of them is modelled, and neither is any `print` or traceback.
- The `/health` endpoint (main.py:230-237) returns static JSON. Environment loading (main.py:9-20) becomes parameters. Both are left out.
- `/test-webhook` (main.py:240-281) replays a fixed payload by replacing Flask's global request. It is left out; `HandleDelivery` takes the payload as an argument instead.
- test.py is a manual credential check against the model API, with no logic to model.
- The prompt interpolation does not escape or sanitise the user's text, as in the source. Prompt injection is outside the model.

## Findings

| source | as written | input that shows it | evidently intended | confidence | as-written member | corrected member |
|---|---|---|---|---|---|---|
| main.py:134 | `token == META_VERIFY_TOKEN`, where both sides are `None` when the query argument is missing and the environment variable is unset | `hub.mode=subscribe&hub.challenge=123` without `hub.verify_token` while `META_VERIFY_TOKEN` is unset: the handshake answers "123" with 200 | refuse every handshake while no verify token is configured | medium, not executed | Verification.UnsetTokenAcceptsTokenlessRequest | Verification.VerifyWebhookConfigured |
