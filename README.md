# Chatbot FAQ widget: navigation, content loading and view selection

This project models the `Chatbot` component of an embeddable FAQ chat widget. The
component shows a floating button that opens a panel. On mount it loads a welcome message
and a list of topic keys, then loads one topic per key. The user then moves through a small
view-state machine: the welcome view, a topic view and a sub-topic view. Back and home
controls work over a history stack.

The model has three parts, one module each, plus the component itself:

- `Faq` (`faq.dfy`): the content. `Dict` stands for a JavaScript object with string keys.
  It holds the values by key together with the order in which `Object.keys` lists them,
  which is insertion order. Also here: `Topic`, `FAQData`, and `Dedup`, which gives the key
  order that results from assigning a list of keys one after another.
- `Content` (`content.dfy`): the `fetchWelcome` effect. `AssembleQueries` is the
  `for … of` loop as a method with loop invariants. The network is a parameter:
  - the outcome of the welcome request is an `Option<WelcomeReply>`;
  - the outcome of the i-th topic request is `replies[i]`. A request with no entry in
    `replies` never settles, so it publishes nothing, the same as a failed request.

  The postconditions state:
  - all-or-nothing publishing;
  - the published key order, which is order of first occurrence;
  - that each key holds the reply to its last request.
- `Navigation` (`navigation.dfy`): the state `isOpen`/`view`/`history`, with one pure
  function per handler. `Step` and `Run` replay a sequence of user actions. The invariant
  `Inv` holds in every reachable state.
- `Render` (`render.dfy`): `renderView` as a pure function to an abstract `Body`. The body
  carries the messages and the button keys, not markup. `Offered` says which handlers the
  rendered panel lets the user trigger.
- `Widget` (`chatbot.dfy`): the class `Chatbot`. Its fields are `isOpen`, `faqData`,
  `view` and `history`. It has one method per handler, and each method's postcondition
  ties the new state to the pure function of `Navigation`. A client method replays a
  complete session.

The model follows the code as written, including these behaviours:

- Closing the panel leaves `view` and `history` as they are. Only opening resets them
  (`src/components/Chatbot.tsx:61-68`).
- A selection is never checked against the loaded content. Clicking an unknown key still
  pushes the history and changes the view. Rendering that view then throws a TypeError for
  a missing topic, or shows an empty message for a missing sub-topic. The model has
  `Body.Throws` and `SubBody(_, None)` for these outcomes.
- The history can hold the current view when the handlers are called freely. The
  invariant that the history never holds the current view holds only when the user clicks
  what the panel offers. `Render.OfferedRunKeepsTrail` proves that in that case the
  history is exactly the breadcrumb trail of the view.
- Content is loaded once, on mount, and not on each open.
- The back control is always shown, and on an empty history it does nothing.

## Model

| member | source | states |
|---|---|---|
| `Faq.Dict.Put` | src/components/Chatbot.tsx:46 | Assigning a key stores the value under it and leaves every other key's value as it was. A new key goes to the end of the key order and an existing key keeps its place. Well-formedness (each key listed once) is kept. |
| `Faq.Dedup` | src/components/Chatbot.tsx:37-47 | The key order of the object built by the loop has no repetitions and holds exactly the keys of the welcome list. |
| `Faq.DedupOfDistinct` | src/components/Chatbot.tsx:39-47 | When the welcome list has no repeated key, the object's key order is the welcome list itself. |
| `Faq.EmptyDict` | src/components/Chatbot.tsx:37 | The object the loop starts from is well formed, has no keys and has no entries. |
| `Content.AssembleQueries` | src/components/Chatbot.tsx:37-47 | The loop yields an object exactly when every topic request succeeded. The object's key order is first-occurrence order, its keys are the requested ones, and each key holds the reply to its last request. |
| `Content.AssembledSnoc` | src/components/Chatbot.tsx:39-46 | One more successful request extends the object built so far as one loop iteration does. |
| `Content.HoldsSnoc` | src/components/Chatbot.tsx:46 | After the assignment of one more reply, each key still holds the reply to its last request. |
| `Content.FetchWelcome` | src/components/Chatbot.tsx:32-56 | Content is published exactly when the welcome request and every topic request succeeded. The published welcome is the welcome reply's message and the queries are the assembled object. Any failure publishes nothing. |
| `Content.AssembledKeys` | src/components/Chatbot.tsx:37-52 | The published queries have exactly the keys of the welcome reply. |
| `Content.AssembledDistinct` | src/components/Chatbot.tsx:37-52 | With repetition-free keys, the key order is the welcome order and key i maps to reply i. |
| `Content.AssembledWellFormed` | src/components/Chatbot.tsx:45-52 | If the replies decoded as JSON objects, the published content is well formed. |
| `Navigation.ToggleBot` | src/components/Chatbot.tsx:61-68 | `isOpen` flips. Opening sets the view to welcome and empties the history. Closing leaves the view and the history untouched. |
| `Navigation.GoBack` | src/components/Chatbot.tsx:70-77 | On a non-empty history, the view becomes the former last entry and exactly that entry is removed. On an empty history nothing changes. |
| `Navigation.GoHome` | src/components/Chatbot.tsx:79-82 | The result is the welcome view with an empty history, whatever the prior state. |
| `Navigation.HandleQueryClick` | src/components/Chatbot.tsx:84-87 | The current view is appended to the history, with earlier entries kept. The view becomes the topic `key`. |
| `Navigation.HandleSubQueryClick` | src/components/Chatbot.tsx:89-92 | The current view is appended to the history. The view becomes sub-topic `sub` of `key`. |
| `Navigation.StepKeepsInv` | src/components/Chatbot.tsx:61-92 | Every handler preserves the invariant. A non-empty history starts with welcome, and an empty history means the view is welcome. |
| `Navigation.RunKeepsInv` | src/components/Chatbot.tsx:61-92 | Any sequence of handler calls preserves the invariant. |
| `Navigation.ReachableInv` | src/components/Chatbot.tsx:28-92 | Every state reachable from the initial state satisfies the invariant. |
| `Navigation.BackAll` | src/components/Chatbot.tsx:70-77 | Pressing back until the history runs out ends with an empty history and the same panel visibility. |
| `Navigation.BackAllEndsOnWelcome` | src/components/Chatbot.tsx:70-92 | In a state satisfying the invariant, going back until the history is empty ends on the welcome view. |
| `Navigation.ReachableBacksToWelcome` | src/components/Chatbot.tsx:28-92 | From any state reachable from the initial one, going back until the history is empty ends on welcome. |
| `Navigation.BackUndoesQueryClick` | src/components/Chatbot.tsx:70-87 | Back right after a topic click restores the prior state exactly. |
| `Navigation.BackUndoesSubQueryClick` | src/components/Chatbot.tsx:70-92 | Back right after a sub-topic click restores the prior state exactly. |
| `Navigation.CloseThenOpen` | src/components/Chatbot.tsx:61-68 | Closing and reopening gives the same state as the first open: open, welcome, empty history. |
| `Navigation.HomeForgetsPast` | src/components/Chatbot.tsx:79-82 | Home is idempotent. Its result does not depend on the prior view or history. |
| `Render.RenderView` | src/components/Chatbot.tsx:94-148 | The body is the loading placeholder exactly when no content is published. Rendering throws exactly when a topic or sub-topic view names a topic key the content lacks. |
| `Render.ResolvedRendersContent` | src/components/Chatbot.tsx:97-146 | A view whose keys exist renders one of three bodies. The welcome view shows the welcome message and one button per topic key, in `Object.keys` order. A topic view shows the topic's key and message, one button per sub-key (`Object.keys(q.sub)`) when the topic has sub-topics, and no button list otherwise. A sub-topic view shows the sub-key and the answer stored under it, `queries[key].sub[sub]`. |
| `Render.Offered` | src/components/Chatbot.tsx:102-175 | The events the rendered panel wires up. The floating toggle is always there (lines 152-157). Back, close and home are there only while the panel is open (lines 159-175). A topic click is there for each key listed on the welcome body (lines 102-110). A sub-topic click is there for each sub-key listed on a topic body, and it carries that topic's key (lines 125-133). Its contract states the consequences. Every control except the toggle needs the panel open. A topic click happens only on the welcome view of loaded content, for a listed key. A sub-topic click happens only on the view of that topic. |
| `Render.Trail` | src/components/Chatbot.tsx:84-92 | The breadcrumb trail of a view starts at welcome, never holds the view itself and has at most two entries. |
| `Render.OfferedStepKeepsTrail` | src/components/Chatbot.tsx:61-176 | A handler the panel offers keeps the history equal to the breadcrumb trail of the view. |
| `Render.OfferedRunKeepsTrail` | src/components/Chatbot.tsx:61-176 | Any run of offered clicks keeps the history equal to the breadcrumb trail of the view. |
| `Render.OfferedStepResolves` | src/components/Chatbot.tsx:94-176 | With well-formed content, an offered click leads only to a view and history whose keys exist. |
| `Render.OfferedRunResolves` | src/components/Chatbot.tsx:94-176 | The property of `OfferedStepResolves` holds along any run of offered clicks. |
| `Render.OfferedNavigationIsConsistent` | src/components/Chatbot.tsx:28-176 | From the initial state, clicking only what the panel offers never reaches a view that throws or shows an empty sub-topic message. The history is always the view's breadcrumb trail. |
| `Render.LoadingUntilPublished` | src/components/Chatbot.tsx:95 | While `faqData` is null, every view renders the loading placeholder. |
| `Widget.Chatbot.constructor` | src/components/Chatbot.tsx:26-29 | Initial state: closed, no content, welcome view, empty history. |
| `Widget.Chatbot.LoadContent` | src/components/Chatbot.tsx:31-59 | `faqData` becomes the assembled content when every request succeeded and keeps its value otherwise. Navigation state is untouched. |
| `Widget.Chatbot.ToggleBot` | src/components/Chatbot.tsx:61-68 | The same update as `Navigation.ToggleBot`, applied to the fields, keeping the invariant. |
| `Widget.Chatbot.GoBack` | src/components/Chatbot.tsx:70-77 | The history is copied and popped, and the popped entry becomes the view. There is no change on an empty history. The invariant is kept. |
| `Widget.Chatbot.GoHome` | src/components/Chatbot.tsx:79-82 | The view becomes welcome and the history empty. Nothing else changes. |
| `Widget.Chatbot.HandleQueryClick` | src/components/Chatbot.tsx:84-87 | Pushes the current view and shows topic `key`, keeping the invariant. |
| `Widget.Chatbot.HandleSubQueryClick` | src/components/Chatbot.tsx:89-92 | Pushes the current view and shows the sub-topic, keeping the invariant. |
| `Widget.SessionAssembled` | src/components/Chatbot.tsx:37-52 | For the sample content, the published object lists "About Us" and "Products" in order and holds the fetched "About Us" topic. |
| `Widget.SessionRenders` | src/components/Chatbot.tsx:94-146 | For the sample content, the "Mission" sub-topic view shows its answer and the welcome view shows "Hi!" with both topic keys. |
| `Widget.AboutUsSession` | src/components/Chatbot.tsx:25-148 | Load, open, pick "About Us", pick "Mission", back twice: the answer was shown, and the session ends open on welcome with an empty history and the topic list unchanged. |

## Left out

- HTTP, `fetch`, `res.json()` and the backend address (`BACKEND_URL`) are I/O. They are
  replaced by the given outcomes `welcome` and `replies`. A reply whose JSON does not have
  the `{message, sub}` shape is not modelled. The decoded topic is taken as given.
- React machinery is not modelled: `useState`, the timing of the mount effect, and the
  batching of functional updaters. Each handler is one atomic update that reads the current
  fields. A stale closure reading an out-of-date `view` or `isOpen` is not represented.
- JSX, CSS classes, emoji labels and the panel layout are left out. The body is an
  abstract `Body`. Of the panel markup, only which controls are offered is kept, in
  `Render.Offered`.
- The `console.error` logging of a failed load is left out. The failure itself is
  modelled as "nothing is published".
- `Render.RenderView` does not capture what React does after a render throws, such as an
  error boundary or an unmounted tree. That outcome is the single value `Throws`.
- JavaScript object corner cases: `Object.keys` lists integer-like keys first in numeric
  order, assigning the key `__proto__` sets the prototype, and `queries[key]` can reach
  inherited properties such as `toString`. `Dict` models a plain insertion-ordered
  dictionary instead.
- Concurrency between the load and the user is not modelled. The load runs as one step.
  `LoadContent` leaves the navigation state untouched, so it may be placed anywhere in a
  session.
