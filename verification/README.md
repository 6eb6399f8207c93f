# tg_cleaner moderation rule, in Dafny

The cleaner is a chat bot that removes service notifications (a user joined,
a user left, a message was pinned) from a configured set of group chats. This
project models its one piece of decision logic:

- the message filter `delete_messages_filter`, a first-match-wins chain of
  checks: a private chat is never cleaned; otherwise a message is flagged when
  its new-participant, left-participant or pinned-message attribute is set;
- the handler `delete_messages_handler`: the allow-list gate, the filter, one
  delete request for the message's own chat and message id, and the bare
  `except` that swallows any failure of that request;
- the handler applied to a stream of messages, each judged on its own.

Modules:

- `PyValues` (`pyvalues.dfy`): Python values and truthiness. An optional
  attribute is `Absent` or `Present(value)`, and it is *set* exactly when it
  is present and truthy, matching the `hasattr` test followed by the truth
  test in the source.
- `Telegram` (`telegram.dfy`): `Chat` (id and type string) and `Message`.
- `Cleaner` (`cleaner.dfy`): `DeleteFilter`, the closed-form reference rule
  `ServiceNotice`, the predicate `Qualifies` (allowed chat and service
  notification), the gate `Decide` returning an `Action`
  (`NoAction | Delete(chat, messageId)`), a stand-in `CallDelete` for the
  platform call that raises on refusal, and the best-effort step
  `Complete` / `Handle` that always ends in a normal return.
- `Dispatch` (`dispatch.dfy`): `Requests`, the delete requests issued for a
  sequence of messages, and `HandleAll`, the handler run over that sequence.
- `Properties` (`properties.dfy`): the lemmas.

The allow-list is a parameter (`set<int>`), and so is the platform's answer to
a delete request (`DeleteOutcome = Ok | Err(reason)`).

Modelling choices:

- The chat type is kept as the string the code compares with `"private"`.
  Each service attribute is tested for presence and then for truthiness, as
  the code does with `hasattr` followed by a truth test. `Cleaner.FlagsOf`
  gives the three-boolean view of a message, and `Cleaner.ServiceNotice` is
  the closed-form rule over that view.
- The code builds the delete request with the chat object itself as its chat
  argument (`tg_cleaner/app.py:70`), not the chat's id. `Action.Delete`
  therefore carries the `Chat` value. Whether the platform library accepts a
  chat object there is outside the model. If it rejects it, the rejection is
  raised inside the `try` block and is swallowed like any other refusal. The
  `Err` outcome covers that case.
- The source has no loop over messages: the library's router calls the
  handler once per incoming message (`tg_cleaner/app.py:61`).
  `Dispatch.HandleAll` models that repeated call and adds no behaviour of its
  own; its per-message results are the single-message handler's by
  construction. `Dispatch.Requests` and its lemmas describe the delete
  requests such a run issues.

## Model

| member | source | states |
|---|---|---|
| Cleaner.DeleteFilter | tg_cleaner/app.py:43-59 | the ordered filter agrees with the closed-form rule: flagged exactly when the chat is not private and at least one service attribute is present and truthy |
| Cleaner.Decide | tg_cleaner/app.py:62-70 | a delete is requested exactly when the chat id is in the allow-list and the message is a service notification, and the request names the message's own chat and message id |
| Cleaner.Complete | tg_cleaner/app.py:69-73 | whatever the platform answers, the step returns normally; the message is deleted exactly when a delete was requested and accepted, marked failed exactly when it was requested and refused, and the effect names the requested message |
| Cleaner.Handle | tg_cleaner/app.py:62-73 | the handler always returns normally; it touches nothing unless the chat is allowed and the message qualifies, deletes exactly when it qualifies and the platform accepts, and only ever acts on the message it was given |
| Dispatch.Requests | tg_cleaner/app.py:61-73 | over a sequence of messages, the number of requests equals the number of messages that qualify (so never more than one per message), every request is for a qualifying message of the sequence, and every qualifying message gets its request; the order is fixed by RequestsAppend and RequestsSingle |
| Dispatch.HandleAll | tg_cleaner/app.py:61-73 | handling a stream gives, for each message, exactly the single-message handler's result for that message and its outcome (no memory across messages); every handling returns normally; the requests issued are those of `Requests` |
| Properties.PrivateNeverFlagged | tg_cleaner/app.py:44-46 | a message in a private chat is never flagged, whatever its service attributes hold |
| Properties.NewParticipantFlagged | tg_cleaner/app.py:47-50 | outside a private chat, a set new-participant attribute flags the message |
| Properties.LeftParticipantFlagged | tg_cleaner/app.py:51-54 | outside a private chat, a set left-participant attribute flags the message |
| Properties.PinnedFlagged | tg_cleaner/app.py:55-58 | outside a private chat, a set pinned-message attribute flags the message |
| Properties.OrdinaryMessageKept | tg_cleaner/app.py:47-59 | with no service attribute set (missing or falsy alike) the message is not flagged |
| Properties.DisallowedChatIgnored | tg_cleaner/app.py:63-65 | a chat outside the allow-list gets no delete and the handler returns with nothing done, whatever the filter says |
| Properties.UnflaggedMessageIgnored | tg_cleaner/app.py:66-68 | a message the filter rejects gets no delete and the handler returns with nothing done |
| Properties.DeleteFailureSwallowed | tg_cleaner/app.py:69-73 | a refused delete never propagates: the handler returns normally and the message is not deleted |
| Properties.RequestsAppend | tg_cleaner/app.py:61-73 | the requests for two streams handled one after the other are the requests of the first followed by those of the second |
| Properties.RequestsSingle | tg_cleaner/app.py:61-73 | one message yields exactly one request when it qualifies and none otherwise |
| Properties.Scenarios | tg_cleaner/app.py:43-70 | a pinned message in a private chat is kept; a join in a group, a departure in a supergroup and a pin in a group are flagged; a group message whose attributes are all None is kept; a join in chat 200 with allow-list {100} gets no delete |

## Left out

- Cleaner.CallDelete: a stand-in for the platform's delete call at `tg_cleaner/app.py:70`, with no contract of its own. It returns when the `DeleteOutcome` parameter is `Ok` and raises when it is `Err`.
- Dispatch.Requests: its own contract fixes how many requests are issued and which messages they target, but not their order. `Properties.RequestsAppend` and `Properties.RequestsSingle` together determine the exact sequence.

- The HTTP server, its CORS middleware and the `/webhook` endpoint (`tg_cleaner/app.py:12-20`, `30-33`): transport, not decision logic.
- Decoding an update from the request body and feeding it to the dispatcher: that is library code outside this model. The model starts from a decoded `Message`.
- Webhook registration, the startup and shutdown hooks and closing the bot session (`tg_cleaner/app.py:36-40`, `76-85`): network I/O and lifecycle.
- Logging calls: side effects with no bearing on the decision.
- Loading the bot token, the webhook URL and the chat allow-list from settings: configuration I/O. The settings module is not part of this model, and the allow-list is a parameter of type `set<int>`.
- Asynchronous execution: the handler awaits one call and holds no shared state, so the decision is the same under any interleaving.
- What the platform does with a delete request: its answer is the `DeleteOutcome` parameter.
