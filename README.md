# Product management client: latest price, edit session and transport split

This project is a Dafny model of the logic in a small React client. The client talks to a Hasura GraphQL backend. It shows a live table of products, each with a price history, and lets the user add, edit and delete products through a modal form. Three pieces of that client are modelled and proved:

- **Latest price** (`products.dfy`, module `Products`). The "Latest Price" column folds a product's `product_prices` with a reducer. The reducer keeps the current entry when its valid date is strictly later, and the kept entry otherwise. The fold is seeded with the first entry and runs over the whole list. The model proves that the fold returns the *first* entry carrying the greatest valid date, so on a tie the earlier entry wins. The proof is against an independent index-based definition, in both directions. An empty or absent list shows "No price available".
- **Edit session** (`edit_session.dfy`, module `EditSession`). The screen holds three pieces of state: whether the modal is open, the product being edited (if any) and the form's draft. The handlers are add, edit, form change, close, submit and a confirm-gated delete. They are methods of the class `ProductManagement` that update those fields in place. Each method is proved against a pure transition function on a `Session` value, and the lemmas about sequences of handler calls are stated on those functions. The backend's answer to a mutation (`Outcome`) and the user's answer to the delete confirmation are method inputs.
- **Transport split** (`apollo_links.dfy`, module `ApolloLinks`). Apollo's `split` sends an operation to the websocket link exactly when its main definition has kind `"OperationDefinition"` and operation `"subscription"`. Everything else goes to the HTTP link. Both links carry the same `x-hasura-admin-secret` header.

Prices are JavaScript numbers that the client only copies, so they are an opaque type `Price`. Valid dates are compared as `new Date(...)` timestamps, so they are integers (`Date = int`).

Three behaviours of the code that a reader might not expect, all followed by the model:

- The edit form is seeded from `product_prices[0]`, not from the latest price (`SeedMayDifferFromLatestPrice` exhibits the difference).
- Closing the modal keeps the editing target and the draft.
- A successful submit only closes the modal. The target and the draft are left as they were.

## Model

| member | source | states |
|---|---|---|
| `Products.Reduce` | src/components/ProductManagement.tsx:184-190 | The reduce returns either its seed or an element of the list. The result is no earlier than the seed and no earlier than any element. |
| `Products.LatestPrice` | src/components/ProductManagement.tsx:183-190 | There is no entry exactly when the price list is empty. Otherwise the entry is a member of the list and has no later-dated entry in it. |
| `Products.RenderPriceCell` | src/components/ProductManagement.tsx:182-196 | The cell shows "No price available" exactly when the row's price list is absent or empty. Otherwise it shows the price and date of an entry of the list that has no later-dated entry, namely the first entry carrying the greatest valid date. |
| `Products.FirstLatestExists` | src/components/ProductManagement.tsx:184-190 | Every non-empty price list has an index holding a greatest date with only strictly earlier dates before it. |
| `Products.ReduceReturnsFirstLatest` | src/components/ProductManagement.tsx:184-190 | Folding from a seed over a list returns the first greatest-date entry of seed-then-list, because the strict `>` keeps the entry already held. |
| `Products.LatestPriceIsFirstLatest` | src/components/ProductManagement.tsx:183-190 | The selected entry is the one at the first index carrying the greatest valid date. |
| `Products.LatestPriceCharacterization` | src/components/ProductManagement.tsx:183-190 | If and only if: the cell selects `e` exactly when `e` is at the first greatest-date index. The selection is therefore deterministic. |
| `Products.TieKeepsEarlierEntry` | src/components/ProductManagement.tsx:186-188 | When several entries share the greatest valid date, the one shown sits at or before any of them: the earliest of the tied entries wins. |
| `Products.LatestPriceAfterAppend` | src/components/ProductManagement.tsx:184-190 | An entry pushed with a strictly later date than all others becomes the latest price. An entry no later than the current latest price leaves the choice unchanged. |
| `EditSession.BuildPayload` | src/components/ProductManagement.tsx:113-125 | The payload carries the draft's non-empty name and category and exactly one price entry, made of the draft's price and valid date. |
| `EditSession.SeedDraft` | src/components/ProductManagement.tsx:87-93 | The edit draft holds the product's name and category and the price and date of its first price entry. Price and date are both absent when the list is empty. |
| `EditSession.Add` | src/components/ProductManagement.tsx:79-83 | After "Add": no target, an empty draft that cannot pass validation, modal open. |
| `EditSession.Edit` | src/components/ProductManagement.tsx:85-95 | After "Edit" on a product: that product is the target, the draft is seeded from it, modal open. |
| `EditSession.Close` | src/components/ProductManagement.tsx:214 | Closing the modal changes only the modal flag. |
| `EditSession.ChangeForm` | src/components/ProductManagement.tsx:224-225 | A form change replaces the draft and nothing else. |
| `EditSession.SubmitRequest` | src/components/ProductManagement.tsx:107-139 | Submit issues nothing exactly when a required field is missing. "Missing" is `IsComplete` failing: `IsComplete` is the required-field schema at lines 57-64, which requires a non-empty name and category, a price and a valid date. Otherwise it issues an update keyed by the target's id when there is a target, and an insert when there is none. Both carry the draft's payload, and submit never issues a delete. |
| `EditSession.AfterSubmit` | src/components/ProductManagement.tsx:107-143 | A submit never changes target or draft. The modal closes exactly when the draft was complete and the backend succeeded. An invalid draft or a failed mutation changes nothing. |
| `EditSession.DeleteRequest` | src/components/ProductManagement.tsx:97-105 | A delete mutation for `id` is issued exactly when the user confirmed. |
| `EditSession.RetryAfterFailureRepeatsMutation` | src/components/ProductManagement.tsx:140-143 | After a failed mutation the session is unchanged, so submitting again issues the same mutation. |
| `EditSession.AddThenSubmitIsBlocked` | src/components/ProductManagement.tsx:79-111 | Submitting a freshly opened add form issues nothing and leaves the modal open, whatever the backend would answer. |
| `EditSession.AddFillSubmitInserts` | src/components/ProductManagement.tsx:107-143 | Add, then a complete form, then submit: an insert of exactly the typed values is issued. The modal closes exactly when the backend succeeds. |
| `EditSession.EditThenSubmitUpdates` | src/components/ProductManagement.tsx:85-132 | Edit, then submit unchanged: an update keyed by the product's id is issued, with its name, category and first price entry. |
| `EditSession.EditIncompleteProductIsBlocked` | src/components/ProductManagement.tsx:85-111 | Editing a product without prices, or with an empty name or category, and submitting unchanged issues nothing and changes nothing. |
| `EditSession.SeedMayDifferFromLatestPrice` | src/components/ProductManagement.tsx:85-95 | For a product whose second entry is later, the edit draft holds the first entry's price while the table shows the second's. |
| `EditSession.CloseKeepsSubmitTarget` | src/components/ProductManagement.tsx:214 | Closing the modal does not change what a submit of the same session would issue. |
| `EditSession.ProductManagement.constructor` | src/components/ProductManagement.tsx:67-69 | Initial state: modal closed, no target, empty draft, no rows. |
| `EditSession.ProductManagement.HandleAdd` | src/components/ProductManagement.tsx:79-83 | Moves the state to `Add` of the old state, and the rows are unchanged. |
| `EditSession.ProductManagement.HandleEdit` | src/components/ProductManagement.tsx:85-95 | Moves the state to `Edit` of the old state and the product, and the rows are unchanged. |
| `EditSession.ProductManagement.HandleFormChange` | src/components/ProductManagement.tsx:225 | Replaces the draft with the form's value. |
| `EditSession.ProductManagement.HandleClose` | src/components/ProductManagement.tsx:214 | Moves the state to `Close` of the old state. |
| `EditSession.ProductManagement.HandleSubmit` | src/components/ProductManagement.tsx:107-144 | Returns the mutation `SubmitRequest` gives for the old state. The new state is `AfterSubmit` of the old state and the backend's outcome. |
| `EditSession.ProductManagement.HandleDelete` | src/components/ProductManagement.tsx:97-105 | Returns the delete mutation only when the user confirmed. It modifies nothing, whether the backend succeeds or fails. |
| `EditSession.ProductManagement.ReceiveSnapshot` | src/components/ProductManagement.tsx:160 | The rows become exactly the pushed list, and the edit session is untouched. |
| `ApolloLinks.Kind` | src/apollo-client/ApoloClient.tsx:28 | The kind string is `"OperationDefinition"` exactly for operation definitions. |
| `ApolloLinks.OperationField` | src/apollo-client/ApoloClient.tsx:29 | Only operation definitions have an `operation` field. A fragment's is undefined. |
| `ApolloLinks.Route` | src/apollo-client/ApoloClient.tsx:24-34 | The string test sends an operation to the websocket link exactly when its main definition is a subscription operation. Everything else goes to HTTP, so every operation goes to exactly one link. |
| `ApolloLinks.QueriesAndMutationsUseHttp` | src/apollo-client/ApoloClient.tsx:28-34 | Query and mutation operations are routed to the HTTP link. |
| `ApolloLinks.FragmentsUseHttp` | src/apollo-client/ApoloClient.tsx:28-34 | A main definition that is not an operation definition is routed to the HTTP link. |
| `ApolloLinks.RouteDependsOnlyOnKindAndOperation` | src/apollo-client/ApoloClient.tsx:24-34 | Two operations whose main definitions agree on kind and operation are routed alike. |
| `ApolloLinks.SameAdminSecretOnEitherLink` | src/apollo-client/ApoloClient.tsx:6-22 | Whichever link two operations are routed to, both carry the admin-secret header with the same value. |

## Left out

- `getMainDefinition` is Apollo library code and is not part of this model. The main definition it returns (an operation or a fragment definition) is taken as the operation descriptor, and its failure on a document with neither is not modelled.
- The subscription feed, `useSubscription`, the websocket client, `InMemoryCache`, connection setup and reconnection are network I/O and library internals. A push is modelled only as `ReceiveSnapshot`, which replaces the rows wholesale.
- The schema library behind `model.check` is not part of this model. Its answer is taken to be "all four required fields are present": a non-empty name and category, a price and a valid date. Its number and date type checks are not modelled. If that library's `check` returns a per-field report object rather than a yes/no answer, the negation at line 108 would never block a submit. This model does not capture that reading.
- Date strings and `new Date(...)`, `toISOString` and `toLocaleDateString` are library parsing and locale formatting, so dates are integer timestamps. An unparsable date (an Invalid Date, whose comparisons are all false) is not modelled. The only exception is the edit draft of a product with no prices, whose date is modelled as absent.
- Prices are floating-point numbers and are treated as opaque values that are only copied.
- `async`/`await` timing is not modelled. A submit's outcome is applied at once, as if no other handler ran while the mutation was pending. The ordering between mutation responses and feed pushes is likewise not modelled.
- The extra keys that `{...product}` copies into the form value (`id`, `product_prices`) are not modelled. Submit never reads them.
- `console.error` and `console.log` logging, the `loading`/`error` early returns, the JSX, and the rsuite table, modal, form and date-picker widgets are rendering and side effects only.
- `src/App.tsx` is provider wiring with no logic and is not part of this model.
