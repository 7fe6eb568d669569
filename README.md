# Storefront logic of a cooling-systems marketing site, modelled in Dafny

The site is mostly layout. Four small pieces of logic sit behind it, and this project models them and proves their properties.

- **Catalog and comparison selection** (`App.tsx`). The product grid shows the fixed catalog through an exact category filter. Each card's compare button toggles the product's identifier in a selection of at most two. A third pick evicts the oldest one.
- **Booking wizard** (`App.tsx`). The step index is 1, 2 or 3. Every button handler assigns a literal step. A three-segment progress bar is drawn from the step.
- **Chat widget** (`components/AIChat.tsx`). It holds a transcript, an input buffer and a `loading` flag. The send handler runs in two halves. `Send` covers the guard, the user message, clearing the input and raising the flag. `Reply` covers the gateway's answer and lowering the flag. The gateway (`services/geminiService.ts`) is an oracle: any string, or its fixed fallback text on failure.
- **Savings estimator** (`components/Calculator.tsx`). It has two slider inputs, a two-bar dataset and a yearly saving. The model computes them in exact `real` arithmetic.

Files and modules:

- `seqs.dfy` (`SeqUtil`): subsequence, duplicate-freedom, and remove-every-copy over sequences.
- `wrappers.dfy` (`Wrappers`): `Option`.
- `catalog.dfy` (`Catalog`): `Product`, `Category`, `Filter`, the mock catalog, the filter and `find`.
- `comparison.dfy` (`Comparison`): the toggle update and its invariants.
- `booking.dfy` (`Booking`): wizard steps, buttons, transitions and the progress bar.
- `storefront.dfy` (`Storefront`): class `Storefront`, the component's `filter`, `compareList` and `bookingStep` fields, with a method per event handler.
- `gateway.dfy` (`Gateway`): the fail-soft reply, `Advice`, whose two cases `Chat.FailedCallShowsFallback` and `Chat.GeneratedCallShowsText` state.
- `chat.dfy` (`Chat`): pure transitions, the transcript invariant, event traces, and class `ChatSession` whose methods update the three fields in place.
- `calculator.dfy` (`Calculator`): the estimator formulas and their lemmas.

## Model

| member | source | states |
|---|---|---|
| `SeqUtil.Without` | App.tsx:25 | `filter(i => i !== id)`: the result holds exactly the elements of the input other than `id`, and it is no longer than the input |
| `SeqUtil.WithoutMultiplicity` | App.tsx:25 | every element other than `id` is kept as many times as it occurs, and `id` not at all |
| `SeqUtil.WithoutIsSubsequence` | App.tsx:25 | the kept elements stay in their order: the result is a subsequence of the input |
| `SeqUtil.WithoutNoDuplicates` | App.tsx:25 | removing an id keeps a duplicate-free selection duplicate-free |
| `SeqUtil.WithoutPresentLength` | App.tsx:25 | in a duplicate-free selection, removing a present id shortens it by exactly one |
| `SeqUtil.WithoutAbsent` | App.tsx:25 | removing an id that is absent leaves the sequence unchanged |
| `Catalog.InCategory` | App.tsx:21 | a product is in the filtered list exactly when it is in the catalog with category `c` |
| `Catalog.Filtered` | App.tsx:20-22 | the grid's list holds exactly the catalog entries `Matches` accepts for the filter: the whole catalog under "All", the entries of one category under a category button |
| `Catalog.FilterAllIsIdentity` | App.tsx:21 | with "All" the list is the whole catalog in its own order |
| `Catalog.InCategoryIsSubsequence` | App.tsx:21 | a category filter keeps the catalog order (the result is a subsequence of the catalog) |
| `Catalog.InCategoryMultiplicity` | App.tsx:21 | each matching entry is kept as often as it occurs, and a non-matching one never |
| `Catalog.InCategoryAppend` | App.tsx:21 | filtering a concatenation is the concatenation of the filtered parts |
| `Catalog.InCategoryIdempotent` | App.tsx:21 | filtering twice by one category equals filtering once |
| `Catalog.MockFilterResults` | App.tsx:7-12 | on the four-product catalog: "All" gives all four, Industrial exactly product 2, Residential products 1 and 4 in order, Commercial product 3 |
| `Catalog.FindById` | App.tsx:231 | `find` returns None exactly when no entry has the identifier, else the first entry with it |
| `Catalog.MockIdsDistinct` | App.tsx:8-11 | the catalog's identifiers are pairwise distinct and each one is found |
| `Comparison.Toggle` | App.tsx:25 | a selected id is removed and the rest is a subsequence of the selection; an unselected id is appended as the last entry of a selection of at most two |
| `Comparison.ToggleSelectedRemoves` | App.tsx:25 | toggling a selected id removes it, keeps exactly the other ids, and keeps their relative order |
| `Comparison.ToggleUnselectedAppends` | App.tsx:25 | toggling an unselected id gives `LastTwo(prev + [id])`, the `slice(-2)`, in closed form: `prev + [id]` on a selection that is not full, `[last of prev, id]` on a full one, with the id last |
| `Comparison.ToggleKeepsWellFormed` | App.tsx:25 | a selection of at most two distinct ids stays so under any toggle |
| `Comparison.AfterTogglesWellFormed` | App.tsx:17-25 | stated through `AfterToggles`, which folds the clicks from the initial empty selection: every series of toggles leaves a well-formed selection, at most two ids and no duplicates |
| `Comparison.AfterTogglesFromClicks` | App.tsx:25 | every selected id is one that was clicked |
| `Comparison.EvictsOldest` | App.tsx:25 | toggling distinct A, B, C from empty yields `[B, C]` |
| `Comparison.ToggleTwiceRestores` | App.tsx:25 | on a selection that is not full, toggling a new id twice restores the selection |
| `Comparison.ToggleTwiceOnFullLosesOldest` | App.tsx:25 | on a full selection `[x, y]`, toggling a new id twice leaves `[y]`: the evicted entry does not come back |
| `Booking.Rendered` | App.tsx:285-322 | each step's panel, and so its buttons, is on screen only at that step, which is a step of the wizard |
| `Booking.Target` | App.tsx:292-322 | every handler assigns a literal step in 1..3; from a step where the button is on screen the move is 1→2, 2→1, 2→3 or 3→1 |
| `Booking.TransitionsExactly` | App.tsx:285-322 | a step change is offered by some rendered button if and only if it is one of 1→2, 2→1, 2→3, 3→1 |
| `Booking.Run` | App.tsx:18 | from the initial step 1, every series of clicks leaves the step in 1..3 |
| `Booking.EveryStepReachable` | App.tsx:292-322 | steps 1, 2 and 3 are all reached, and Reset returns to 1 |
| `Booking.Segments` | App.tsx:280 | the bar's segments are 1..n in order |
| `Booking.CountHighlighted` | App.tsx:280-281 | never more segments are highlighted than the bar has |
| `Booking.HighlightedIsClampedStep` | App.tsx:280-281 | on an n-segment bar the count of segments `s` with `step >= s` is the step clamped to 0..n |
| `Booking.ProgressMatchesStep` | App.tsx:280-281 | for a step in 1..3, the count of highlighted segments equals the step |
| `Storefront.Storefront.constructor` | App.tsx:16-18 | the page opens on "All", with an empty selection, on step 1 |
| `Storefront.Storefront.FilteredProducts` | App.tsx:20-22 | the grid shows exactly the matching catalog entries in catalog order; "All" shows the catalog itself |
| `Storefront.Storefront.SetFilter` | App.tsx:179 | a category button replaces the filter and nothing else |
| `Storefront.Storefront.ToggleCompare` | App.tsx:24-26 | the selection becomes `Toggle(old, id)` and stays well-formed; a removed id is gone with order kept, an added one is last; nothing else changes |
| `Storefront.Storefront.ClickWizard` | App.tsx:292-322 | the step becomes the button's literal and stays in 1..3; from a rendered button the move is an allowed one; nothing else changes |
| `Storefront.Storefront.HighlightedSegments` | App.tsx:280-281 | the number of highlighted progress segments equals the current step |
| `Chat.TrimStart` | components/AIChat.tsx:21 | the result is a suffix of the input, the prefix dropped is all whitespace, and a non-empty result starts with a non-whitespace character |
| `Chat.TrimEnd` | components/AIChat.tsx:21 | the result is a prefix of the input, the suffix dropped is all whitespace, and a non-empty result ends with a non-whitespace character |
| `Chat.Trim` | components/AIChat.tsx:21 | `trim()` is empty exactly when the input is all whitespace; otherwise the result starts and ends with a non-whitespace character |
| `Chat.TrimIsSlice` | components/AIChat.tsx:21 | `trim()` is the slice of the input between a whitespace prefix and a whitespace suffix |
| `Chat.Accepts` | components/AIChat.tsx:21 | the send guard passes exactly when the input is not all whitespace and no request is outstanding |
| `Chat.Send` | components/AIChat.tsx:21-26 | a send only appends; an accepted one adds one user entry with the untrimmed input, clears the input and sets loading; a rejected one changes nothing |
| `Chat.Prompt` | components/AIChat.tsx:21-28 | the gateway is called exactly when the guard passes, with the text of the user entry the send appended |
| `Chat.Reply` | components/AIChat.tsx:29-30 | the reply only appends one model entry with the reply text, clears loading and keeps the input |
| `Chat.Edit` | components/AIChat.tsx:78 | typing replaces the input and keeps the transcript and the flag |
| `Chat.InitialConsistent` | components/AIChat.tsx:7-11 | the initial state (one model greeting, empty input, not loading) satisfies the transcript invariant with zero round trips |
| `Chat.RejectedSendIsNoOp` | components/AIChat.tsx:21 | a blank input or a send while loading changes nothing and makes no gateway call |
| `Chat.AcceptedSendAppendsUserMessage` | components/AIChat.tsx:23-28 | an accepted send appends exactly one user message with the untrimmed input, clears the input, sets loading, and hands the gateway that same text |
| `Chat.SendPreserves` | components/AIChat.tsx:23-26 | a send keeps the transcript invariant and only appends |
| `Chat.ReplyPreserves` | components/AIChat.tsx:29-30 | completing the outstanding request keeps the invariant with one more round trip, and only appends |
| `Chat.LastIsUserIffLoading` | components/AIChat.tsx:24-29 | under the invariant, the last entry is a user entry exactly when loading |
| `Chat.RoundTripAppendsPair` | components/AIChat.tsx:20-31 | an accepted send followed by its reply appends exactly `{user, input}` then `{model, reply}`, and leaves loading off |
| `Chat.FailedCallShowsFallback` | services/geminiService.ts:20-22 | when the service fails, the gateway's reply (`Advice`) appended as the model message is the fixed fallback text |
| `Chat.GeneratedCallShowsText` | services/geminiService.ts:19 | when the service answers, the gateway passes its text through and the appended model message carries it unchanged |
| `Chat.ReplayConsistent` | components/AIChat.tsx:7-31 | stated through `Replay`, which runs an event trace from the initial state, and `Completed`, which counts its resolved calls: every reachable state has length 1 + 2·completed (+1 while loading), starts with the greeting, and alternates user/model after it |
| `Chat.ReplayAppendOnly` | components/AIChat.tsx:24-29 | over every `Replay` trace, every earlier transcript is a prefix of every later one |
| `Chat.ChatSession.constructor` | components/AIChat.tsx:7-11 | the widget starts with the greeting alone, an empty input and loading off |
| `Chat.ChatSession.Type` | components/AIChat.tsx:78 | typing replaces the input buffer only, also while loading |
| `Chat.ChatSession.StartSend` | components/AIChat.tsx:20-28 | the guarded first half of a send; it returns the gateway prompt, or None with nothing changed; it keeps the invariant |
| `Chat.ChatSession.CompleteSend` | components/AIChat.tsx:28-30 | appends one model message with the reply, clears loading, keeps the input and the earlier entries, and counts one round trip |
| `Calculator.SetBill` | components/Calculator.tsx:33-37 | the bill slider replaces only the bill, and keeps the inputs on the slider grid |
| `Calculator.SetGain` | components/Calculator.tsx:47-51 | the gain slider replaces only the gain, and keeps the inputs on the slider grid |
| `Calculator.Optimum` | components/Calculator.tsx:11 | the projected bill is the bill's remaining share, `bill·(100−gain)/100`, exactly |
| `Calculator.YearlySavings` | components/Calculator.tsx:14 | `(bill − optimum)·12 = bill·gain·12/100` exactly |
| `Calculator.ChartData` | components/Calculator.tsx:9-12 | the dataset has exactly two bars: Current with the bill, then Optimum with `bill·(100−gain)/100`; their difference times 12 is the yearly saving |
| `Calculator.ReachableBounds` | components/Calculator.tsx:9-14 | for every slider-reachable input, `0 < optimum < bill` and the saving is positive |
| `Calculator.WholeSavings` | components/Calculator.tsx:14 | for every slider-reachable input, the saving is a positive whole number and a multiple of 30 |
| `Calculator.DisplayIsExact` | components/Calculator.tsx:77 | for reachable inputs, rounding the saving to whole dollars discards nothing |
| `Calculator.InitialExample` | components/Calculator.tsx:6-7 | the initial inputs (200, 35) are on the slider grid and give optimum 130 and saving 840 |
| `Calculator.MaximumExample` | components/Calculator.tsx:9-14 | (2000, 60) gives optimum 800 and saving 14400 |

## Left out

- Layout, styling, navigation, hero, service cards and footer: presentation only.
- The bar-chart rendering library: only the dataset it receives is modelled (`ChartData`).
- The chat's auto-scroll effect (components/AIChat.tsx:14-18): DOM manipulation through a ref.
- The hosted text-generation call itself: the model identifier, the system instruction, the temperature 0.7, the API key and the error log line. The reply is an arbitrary string argument to `Reply`/`CompleteSend`. The SDK's possibly undefined `response.text` is not modelled.
- Asynchronous scheduling and React's render batching. The await is the split between `StartSend` and `CompleteSend`. The guard reads the current `loading` field, so a second press before a re-render is not modelled.
- Floating-point arithmetic, `toFixed` and `toLocaleString`: the estimator uses exact reals, and prices are whole dollars.
- `String.prototype.trim` is modelled as stripping the ECMAScript whitespace and line-terminator characters, with no Unicode normalisation.
- Booking.Run: a click on a button that is not on screen cannot happen; the trace function reads such an entry as no event.
- Chat.Replay: a resolution with no request outstanding cannot happen (each call resolves once, after its own send); the trace function reads it as no event.
- Chat.ChatSession.CompleteSend: requires `loading`, because the handler's second half only runs after an accepted first half.
- The chat toggle button (`showChat`, App.tsx:402): it mounts or unmounts the widget. Closing it discards the transcript and any outstanding reply, and reopening starts again from `Initial`, so the append-only and one-request-at-a-time facts hold for one opening of the widget.
- The wizard's form fields and service-type buttons, and the "Inquiry" and "Generate Comparison Report" buttons: they hold no state and have no handlers.
- The unused `ServiceType`/`ServiceRequest` declarations in `types.ts`.
