# Chat widget topic navigation, modelled in Dafny

This project models the navigation core of a customer-support chat widget
(`ChatComponent`). The widget first fetches an available support
representative. It derives a profile-picture path from the representative's
id, then fetches a tree of support topics. The user walks down the tree by
selecting topics. "Go back" returns one level. "Start again" forgets the
representative's name and reloads the tree.

The component's mutable fields are one immutable record, `Chat.ChatState`.
Each method of the component is a pure transition on that record. An
operation that starts an HTTP fetch returns its new state together with the
request it issues (`FetchRepresentative` or `FetchTopics`). The fetch itself
changes no field until its outcome is applied by a separate transition: `OnRepresentativeLoaded`,
`OnRepresentativeFailed`, `OnTopicsLoaded` or `OnTopicsFailed`.

Files:
- `wrappers.dfy`: `Option`, which stands for `T | null` and for `undefined` reads.
- `decimal.dfy`: how `${id}` renders an integer, plus a parser that reads it back.
- `topic.dfy`: the `Topic` tree and `suggestions || []`.
- `chat.dfy`: the state record, every transition, and the `Event`/`Run` driver.
- `chat_invariants.dfy`: the state invariant and the path invariant, plus the round-trip laws and the back-button laws.
- `chat_scenarios.dfy`: the component's example runs on its sample football/books tree.

Behaviour the model takes from the code, where a reader might expect otherwise:
- `goBack` always leaves `atFirstLevel` false. The expression on line 87 tests
  `history.length === 0 && history[0] == selectedTopic`. With an empty history,
  `history[0]` is `undefined`, and the popped topic is never nullish.
  `Chat.FirstLevelAfterPop` reproduces the expression literally and proves it
  false.
- `startAgain` clears only the representative's name. The image and the id are kept.
- The selected topic is pushed onto the history only when a topic was already
  selected and the state was not at the first level. So the first selection
  from the root pushes nothing. Going back from it finds an empty history and
  triggers a reload.
- The typed service declares no `id` on the representative, but the component
  reads `response.id` and stores whatever it holds. The model's id is
  `Chat.IdValue`: a number, null or undefined. A null id skips the picture
  update, so the previous representative's picture stays. An undefined id
  passes the `!== null` guard and yields `assets/profile-pictures/undefined.jpeg`.

## Model

| member | source | states |
|---|---|---|
| Topics.Suggestions | src/app/components/chat/chat.component.ts:76 | An absent suggestion list reads as empty; a present one is returned as is |
| Chat.Initial | src/app/components/chat/chat.component.ts:19-27 | A new component has no representative, offers no topics, has no selection or history, is not at a leaf and is at the first level |
| Chat.GetRepresentative | src/app/components/chat/chat.component.ts:31-32 | Asking for a representative issues the representative fetch and changes no field |
| Chat.OnRepresentativeLoaded | src/app/components/chat/chat.component.ts:33-37 | A fetched representative sets the name and stores the id as received. A non-null id (number or undefined) sets a picture path that decodes back to that id; a null id keeps the previous picture. Every navigation field is left alone and a topic load is requested |
| Chat.OnRepresentativeFailed | src/app/components/chat/chat.component.ts:39-41 | A failed representative fetch changes nothing and requests nothing |
| Chat.LoadRepresentativeImage | src/app/components/chat/chat.component.ts:45-50 | With a null id nothing changes. With any other id (a number or undefined) the image becomes a picture path that decodes back to the id. Name, id and navigation are untouched |
| Chat.IdText | src/app/components/chat/chat.component.ts:48 | A numeric id is spelt with a leading digit or minus sign, so it can never read as "null" or "undefined" |
| Chat.ImagePath | src/app/components/chat/chat.component.ts:48 | The picture path starts with assets/profile-pictures/, ends with .jpeg, and decodes back to the id it was built from |
| Chat.ImageRoundTrip | src/app/components/chat/chat.component.ts:48 | The id (number, null or undefined) can be recovered from the picture path built from it |
| Chat.ImageIdOnlyPaths | src/app/components/chat/chat.component.ts:48 | A string that decodes to an id is exactly the picture path of that id, so different ids give different paths |
| Decimal.NatToDecimal | src/app/components/chat/chat.component.ts:48 | Rendering a natural number gives a non-empty digit string with no leading zero, starting with '0' only for zero |
| Decimal.IntToDecimal | src/app/components/chat/chat.component.ts:48 | Rendering an integer gives a minus sign exactly for negatives, followed by a canonical digit string |
| Decimal.IntRoundTrip | src/app/components/chat/chat.component.ts:48 | Parsing an integer's rendering gives the integer back |
| Decimal.ParseIntOnlyRenderings | src/app/components/chat/chat.component.ts:48 | Parsing succeeds only on the rendering of the parsed number |
| Chat.LoadTopics | src/app/components/chat/chat.component.ts:53-54 | Loading topics issues the topic fetch and changes no field until it resolves |
| Chat.OnTopicsLoaded | src/app/components/chat/chat.component.ts:55-62 | A fetched tree becomes the offered list, the history is emptied, the selection cleared, depth reset and first level set; representative fields are kept |
| Chat.OnTopicsFailed | src/app/components/chat/chat.component.ts:63-65 | A failed topic fetch changes nothing and requests nothing |
| Chat.ResetState | src/app/components/chat/chat.component.ts:105-110 | Reset empties the history, clears the selection and depth, sets first level, and keeps the offered list and representative |
| Chat.SelectTopic | src/app/components/chat/chat.component.ts:70-79 | Selecting t offers t's suggestions and marks depth reached exactly when t is a leaf; it leaves first level. The history grows by the previous selection exactly when one existed off the first level, otherwise it is unchanged |
| Chat.At | src/app/components/chat/chat.component.ts:87 | Indexing a list yields a value exactly for in-bounds indices, and then the element there |
| Chat.LooseEquals | src/app/components/chat/chat.component.ts:87 | Loose equality of two topic-or-nullish values holds exactly when both are nullish or both are the same topic; a nullish value never equals a topic |
| Chat.FirstLevelAfterPop | src/app/components/chat/chat.component.ts:87 | The first-level expression evaluated after a pop is always false |
| Chat.GoBack | src/app/components/chat/chat.component.ts:82-91 | With an empty history nothing changes and a topic reload is requested. Otherwise the last history entry is popped into the selection and its suggestions are offered. Depth is recomputed, first level stays false and the representative is kept |
| Chat.ShowBackButton | src/app/components/chat/chat.component.ts:100-102 | The back button is hidden at a leaf and at the first level, and shown in every other state |
| Chat.StartAgain | src/app/components/chat/chat.component.ts:94-97 | Start again clears only the name, keeps image, id and navigation, and requests a topic reload |
| ChatInvariants.InitialState | src/app/components/chat/chat.component.ts:19-25 | The initial state satisfies the invariant and lies on the (empty) tree's root, and shows no back button |
| ChatInvariants.InvDepthReachedMeansEmpty | src/app/components/chat/chat.component.ts:23-25 | In a consistent state, depth reached implies nothing is offered, and first level implies an empty history |
| ChatInvariants.ResetStateLandsAtRoot | src/app/components/chat/chat.component.ts:105-110 | Resetting a state that offers a tree leaves it consistent, at that tree's root, without a back button; a second reset changes nothing |
| ChatInvariants.HistoryEmptyIffShallow | src/app/components/chat/chat.component.ts:70-90 | In a consistent state the history is empty exactly when at most one topic has been descended into |
| ChatInvariants.SelectTopicKeepsInv | src/app/components/chat/chat.component.ts:70-79 | Selection preserves the state invariant |
| ChatInvariants.GoBackKeepsInv | src/app/components/chat/chat.component.ts:82-91 | Going back preserves the state invariant |
| ChatInvariants.ApplyKeepsInv | src/app/components/chat/chat.component.ts:31-97 | Every user action and every fetch outcome preserves the state invariant |
| ChatInvariants.RunKeepsInv | src/app/components/chat/chat.component.ts:31-110 | Any sequence of actions and fetch outcomes from a consistent state ends in a consistent state |
| ChatInvariants.ReachableStatesAreConsistent | src/app/components/chat/chat.component.ts:19-110 | Every state reachable from the initial one is consistent |
| ChatInvariants.ShowBackButtonMeaning | src/app/components/chat/chat.component.ts:100-102 | In a consistent state the back button shows exactly when a topic is selected and it offers something |
| ChatInvariants.NoBackButtonAtLeaf | src/app/components/chat/chat.component.ts:100-102 | After selecting a leaf the back button is hidden |
| ChatInvariants.BackButtonAfterFirstSelection | src/app/components/chat/chat.component.ts:100-102 | Selecting a non-leaf from the first level shows the back button, with an empty history |
| ChatInvariants.SelectThenBack | src/app/components/chat/chat.component.ts:70-91 | From a consistent state with a selection, select then back restores the entire state and requests nothing |
| ChatInvariants.SelectFromRootThenBack | src/app/components/chat/chat.component.ts:53-91 | From the first level, select then back only requests a reload; once the same tree arrives the original state is restored |
| ChatInvariants.GoBackNeverReachesFirstLevel | src/app/components/chat/chat.component.spec.ts:165-171 | Going back from a state off the first level never returns to the first level |
| ChatInvariants.PrefixOfPath | src/app/components/chat/chat.component.ts:84 | Dropping selections from the end of a path down the tree leaves a path |
| ChatInvariants.ExtendPath | src/app/components/chat/chat.component.ts:72-75 | Appending a suggestion of the last selection to a path (or a root topic to the empty path) gives a path |
| ChatInvariants.SelectOfferedKeepsPath | src/app/components/chat/chat.component.ts:70-79 | Selecting an offered topic extends the chain of selections by that topic and keeps it a path down the loaded tree |
| ChatInvariants.GoBackKeepsPath | src/app/components/chat/chat.component.ts:82-90 | Going back drops the last selection from the chain and keeps it a path |
| ChatInvariants.ApplyKeepsPath | src/app/components/chat/chat.component.ts:53-97 | Each event keeps the state on a path down the tree most recently delivered |
| ChatInvariants.RunKeepsPath | src/app/components/chat/chat.component.ts:53-97 | When only offered topics are selected, the selections always form a path down the last loaded tree |
| ChatScenarios.FetchRepresentativeThenTopics | src/app/components/chat/chat.component.spec.ts:87-110 | Representative 1/"Alice" gives picture path assets/profile-pictures/1.jpeg, then the delivered tree is offered |
| ChatScenarios.ResponseWithoutUsableId | src/app/components/chat/chat.component.ts:35-48 | After Alice (id 1), a response with a null id keeps assets/profile-pictures/1.jpeg; one without an id gives assets/profile-pictures/undefined.jpeg |
| ChatScenarios.RepresentativeFetchFails | src/app/components/chat/chat.component.spec.ts:112-135 | A failed representative fetch leaves the initial state |
| ChatScenarios.SelectAndGoBackTwice | src/app/components/chat/chat.component.spec.ts:137-183 | The select/select/back/back truth table on the sample tree |
| ChatScenarios.LeafThenBack | src/app/components/chat/chat.component.ts:70-91 | Reaching the Liverpool leaf empties the offered list and hides the back button; back returns to Premier League |
| ChatScenarios.StartAgainAfterLoad | src/app/components/chat/chat.component.spec.ts:185-220 | After start again and reload the name is cleared and topics are offered |
| ChatScenarios.BackButtonVisibility | src/app/components/chat/chat.component.spec.ts:222-231 | No back button initially; a back button after selecting Football |

## Left out

- The HTTP service (`ChatService`): its only behaviour is issuing GET requests to a fixed base URL. It is replaced by the `Request` values the transitions emit.
- Angular bootstrap, the application shell component, templates and styles: no logic.
- Console logging in the two error handlers: failure is modelled as "no field changes".
- Overlapping fetches: the order in which responses arrive is concurrency. `Run` applies outcomes in whatever order the event list gives, and does not pair responses with requests.
- Decimal.IntToDecimal: renders every integer in its exact digits. This matches `${id}` for every |id| <= 2^53 (every safe integer and 2^53 itself). Above that the number may not hold the id exactly; it prints the shortest digits that round-trip, padded with zeros, and from 10^21 up it prints exponent notation such as 1e+21. Non-integral ids are not modelled, because the backend's id is an integer.
- Chat.LooseEquals: compares two topics structurally, while TypeScript's `==` on objects compares identity. With the length guard on line 87 the comparison never sees two topics, so the result is the same.
- Chat.GoBack: the `|| null` fallback on line 84 never applies, because a popped topic object is always truthy.
- Chat.OnRepresentativeLoaded: takes the name as a string, as the service's declared response type promises; a response whose name is null or missing is not modelled.
- ChatInvariants.RunKeepsPath: assumes each selected topic is one of those on offer. `selectTopic` itself accepts any topic; the path law holds only for offered ones.
