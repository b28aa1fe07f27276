# User sync, credits and transformation config — a Dafny model

This project models the stateful core of an image-transformation web app.
Four pieces are covered:

- **Webhook handler** (`app/api/webhooks/clerk/route.ts`). It receives the identity provider's signed user events and turns each one into an HTTP status, with at most one call into the user repository.
- **User repository** (`lib/actions/user.action.ts`). It creates, reads, updates and deletes user records, and adjusts a user's credit balance. The record shape and defaults come from `lib/databse/models/user.model.ts`.
- **Utilities** (`lib/utils.ts`). These are the recursive merge of configuration objects, the image-size lookup, and the pruning of a parsed query string.
- **Transformation form** (`app/components/shared/TransformationForm.tsx`). The model covers its state: the image, the staged edit, the committed configuration and the `isTransforming` flag, plus the Apply button's guard.

Files:

- `wrappers.dfy`: `Option` and `Result`.
- `utils.dfy`, module `Utils`:
  - `JValue`, a JSON-like value.
  - The merge as a specification function (`Merge`), and the source's loop over keys as the method `DeepMergeObjects`, proved equal to it.
  - `GetImageSize`.
  - The in-place pruning loops of `removeKeysFromQuery`.
- `user_actions.dfy`, module `UserActions`:
  - The collection as a value (`Table`), with one function per repository operation.
  - The class `UserStore`, which holds the same collection in fields. Each method is proved to do what its function says.
- `clerk_webhook.dfy`, module `ClerkWebhook`:
  - `Classify`, the handler's early-return chain. It ends in a thrown error, a status, or one repository call.
  - `Post`, which runs that call against a `Table`.
- `transformation_form.dfy`, module `TransformationForm`: the class `FormState` and its handlers, plus pure functions for the edits they stage.

Where the code behaves differently from what one might expect of it, the model follows the code:

- **Failed metadata write.** After a user is created, the handler writes the new record's id into the identity provider's metadata. If that write fails, the code answers 500 even though the record stays created (`route.ts:70-83`). A best-effort write would not change the answer.
- **`user.updated` overwrites with blanks.** The handler sends all four fields, with `""` for each absent one, so absent fields are cleared (`route.ts:90-95`).
- **Missing webhook secret.** The secret is checked on every request, and the handler throws when it is missing (`route.ts:11-15`). It is not a start-up condition.
- **Debouncing does not coalesce keystrokes.** The input handler builds a new `debounce` wrapper on every keystroke and calls it at once (`TransformationForm.tsx:89-97`), so no timer is ever cancelled and every updater runs. The model runs each updater. `StageInputLastWins` shows that the final staged edit is the same as with a debounce that keeps only the last keystroke.
- **`firstName` is required.** The schema marks `firstName` as required (`user.model.ts:21`), and a required string must not be empty. The handler fills a missing first name with `""`. So a `user.created` event without a first name ends in 500 with nothing created (`CreatedWithoutFirstNameFails`). No such user can be created through the webhook.

## Model

| member | source | states |
|---|---|---|
| `Utils.DeepMergeObjects` | lib/utils.ts:130-157 | The copy-then-overwrite loop over `obj1`'s keys, recursing where both values are objects, computes exactly `DeepMerge(obj1, obj2)`; a missing `obj2` gives `obj1` back |
| `Utils.DeepMergeOfNothing` | lib/utils.ts:134 | Merging with a `null`/`undefined` second argument returns the first argument unchanged |
| `Utils.MergeKeys` | lib/utils.ts:136-154 | The merged object's key set is exactly the union of both inputs' key sets |
| `Utils.MergeAt` | lib/utils.ts:136-152 | A key only in `obj2` keeps `obj2`'s value; a key of `obj1` keeps `obj1`'s value unless both values are objects, in which case the result is their recursive merge |
| `Utils.MergeEmpty` | lib/utils.ts:136-154 | Merging over, or merging, an empty object changes nothing |
| `Utils.MergeIdempotent` | lib/utils.ts:138-152 | Merging an object with itself gives the same object (by induction over nesting) |
| `Utils.MergeReapplied` | lib/utils.ts:138-152 | Merging the same first argument again over an already merged result changes nothing |
| `Utils.MergeKeepsFirst` | lib/utils.ts:143-152 | Every scalar leaf of the first argument appears at the same path in the merge, and every object of it stays an object there |
| `Utils.DeepMergeKeepsFirst` | lib/utils.ts:130-157 | The same for `deepMergeObjects` with a possibly missing second argument |
| `Utils.MergeRecolorExample` | lib/utils.ts:143-149 | `{recolor:{to:"red"}}` merged over `{recolor:{to:"blue",strength:5}}` is `{recolor:{to:"red",strength:5}}` |
| `Utils.GetImageSize` | lib/utils.ts:97-109 | For `fill`, the option table's entry at the image's aspect ratio when the table holds that ratio, and 1000 when it does not. For other types, the number stored on the image at that dimension, or 1000 |
| `Utils.FillKnownRatio` | lib/utils.ts:102-104 | For `fill`, an aspect ratio filed in the table gives that entry's width or height, whatever else the image holds |
| `Utils.FillIgnoresImageDimension` | lib/utils.ts:102-105 | For `fill`, changing the image's own width or height does not change the size |
| `Utils.FillUnknownRatio` | lib/utils.ts:102-105 | For `fill`, an aspect ratio missing from the table gives 1000 |
| `Utils.OtherTypeReadsImage` | lib/utils.ts:107-108 | For any other type, a number at `image[dimension]` is returned as is, and anything else gives 1000 |
| `Utils.RemoveKeysFromQuery` | lib/utils.ts:68-78 | After both deletion loops, a key remains exactly when it was in the query, is not listed for removal, and is not `null`; each remaining key keeps its value |
| `UserActions.MissingRequired` | lib/databse/models/user.model.ts:17-21 | No required field is reported exactly when `clerkId`, `email`, `username` and `firstName` are all non-empty |
| `UserActions.Create` | lib/actions/user.action.ts:11-20 | Create succeeds exactly when the required fields are non-empty and neither the `clerkId` nor the email is stored yet. The new record carries the given fields and a balance of 10. A failure leaves the collection unchanged |
| `UserActions.Get` | lib/actions/user.action.ts:23-34 | Succeeds exactly when the `clerkId` is stored and returns that record; otherwise fails with "User not found" |
| `UserActions.DefinedFields` | lib/actions/user.action.ts:43-45 | The filtered update holds a field exactly when the caller supplied it, with the supplied value, and no other key |
| `UserActions.Update` | lib/actions/user.action.ts:38-57 | On a known `clerkId`, each supplied field replaces the stored one and each undefined field keeps it. Id, email, balance and every other record are unchanged. An unknown `clerkId` fails with "User update failed" and changes nothing |
| `UserActions.Delete` | lib/actions/user.action.ts:60-74 | On a known `clerkId`, returns the record as it was and removes it and its `_id` entry. An unknown one fails with "User not found" and changes nothing |
| `UserActions.AddCredits` | lib/actions/user.action.ts:77-93 | A resolvable `_id` gets `creditFee` added to its balance, of any sign and with no floor, and nothing else changes. An unknown `_id` fails and changes nothing |
| `UserActions.CreateAddsOne` | lib/databse/models/user.model.ts:17-26 | A successful create keeps the collection well formed and adds exactly one record, under its `clerkId`, with balance 10, which `Get` then finds |
| `UserActions.InsertWellFormed` | lib/databse/models/user.model.ts:18-19 | Inserting a record with an unused `clerkId`, an unused email and a fresh `_id` keeps both unique indexes and the `_id` index consistent |
| `UserActions.CreateDuplicateThrows` | lib/databse/models/user.model.ts:18-19 | A `clerkId` or email already stored makes create fail with the collection unchanged |
| `UserActions.GetMatchesId` | lib/actions/user.action.ts:27-28 | In a well-formed collection, the record returned has the `clerkId` asked for |
| `UserActions.UpdateKeepsOthers` | lib/actions/user.action.ts:47-49 | Update keeps the collection well formed, keeps the set of records, and leaves every other record untouched |
| `UserActions.UpdateIdempotent` | lib/actions/user.action.ts:43-49 | Applying the same update twice gives the same result and collection as applying it once |
| `UserActions.DeleteRemovesOne` | lib/actions/user.action.ts:64-70 | Delete keeps the collection well formed, removes exactly that record, and leaves every other one as it was. Afterwards `Get` fails for that `clerkId` |
| `UserActions.UpdateCreditsKeepsOthers` | lib/actions/user.action.ts:81-87 | A credit update keeps the collection well formed and changes at most one record, and only its balance |
| `UserActions.UpdateCreditsRoundTrip` | lib/actions/user.action.ts:81-85 | Adding `d` and then `-d` gives back the original collection |
| `UserActions.UserStore.CreateUser` | lib/actions/user.action.ts:11-20 | The in-place create keeps the store valid and matches `Create` on its result and new contents |
| `UserActions.UserStore.GetUserById` | lib/actions/user.action.ts:23-34 | The lookup returns what `Get` specifies for the current contents |
| `UserActions.UserStore.UpdateUser` | lib/actions/user.action.ts:38-57 | The in-place update keeps the store valid and matches `Update` |
| `UserActions.UserStore.DeleteUser` | lib/actions/user.action.ts:60-74 | The in-place delete keeps the store valid and matches `Delete` |
| `UserActions.UserStore.UpdateCredits` | lib/actions/user.action.ts:77-93 | The in-place `$inc` keeps the store valid and matches `AddCredits` |
| `ClerkWebhook.Classify` | app/api/webhooks/clerk/route.ts:11-120 | Throws exactly when the secret is missing (the other throws of the handler are listed under Left out). A repository call is made only for a signed, verified request with a valid id, and only for the matching event type and that id. Every early status is 400 or 200 |
| `ClerkWebhook.Post` | app/api/webhooks/clerk/route.ts:10-121 | Throws exactly when the secret is missing (the other throws of the handler are listed under Left out). Every status is 200, 400 or 500, and a 400 never changes the collection |
| `ClerkWebhook.AtMostOneCall` | app/api/webhooks/clerk/route.ts:52-120 | The collection afterwards is that of the one repository call the decision names, and is unchanged when there is none |
| `ClerkWebhook.MissingHeadersRejected` | app/api/webhooks/clerk/route.ts:22-25 | A missing or empty `svix-id`, `svix-timestamp` or `svix-signature` gives 400 with no repository call |
| `ClerkWebhook.BadSignatureRejected` | app/api/webhooks/clerk/route.ts:34-43 | A failed verification gives 400 and the event is never dispatched |
| `ClerkWebhook.InvalidIdRejected` | app/api/webhooks/clerk/route.ts:45-50 | A missing, empty or non-string `data.id` gives 400 before dispatch, for every event type |
| `ClerkWebhook.CreatedMissingFieldsRejected` | app/api/webhooks/clerk/route.ts:54-59 | `user.created` without a username or a first email address gives 400 and creates nothing |
| `ClerkWebhook.CreatedOutcome` | app/api/webhooks/clerk/route.ts:61-83 | The create call gets `clerkId = id`, with `""` for a missing first name, last name or photo. The answer is 200 with the new record exactly when both the create and the metadata write succeed, and 500 otherwise; a successful create adds one record even when the answer is 500 |
| `ClerkWebhook.CreatedWithoutFirstNameFails` | app/api/webhooks/clerk/route.ts:61-83 | A `user.created` event without a first name ends in 500 with the collection unchanged |
| `ClerkWebhook.UpdatedOutcome` | app/api/webhooks/clerk/route.ts:87-103 | `user.updated` overwrites all four fields, each absent one with `""`, and keeps the balance. An unknown id gives 500 and changes nothing |
| `ClerkWebhook.DeletedOutcome` | app/api/webhooks/clerk/route.ts:107-115 | `user.deleted` removes the record with that id and answers 200 with it; an unknown id gives 500 and changes nothing |
| `ClerkWebhook.DeletedUnknownExample` | app/api/webhooks/clerk/route.ts:107-115 | A signed `user.deleted` for `ext_123` with no such record gives 500 |
| `ClerkWebhook.OtherEventIgnored` | app/api/webhooks/clerk/route.ts:117-120 | Any other event type gives 200 with no repository call |
| `ClerkWebhook.MissingSecretThrows` | app/api/webhooks/clerk/route.ts:11-15 | A missing or empty webhook secret makes the handler throw with the collection unchanged |
| `TransformationForm.InitialValues` | app/components/shared/TransformationForm.tsx:53-59 | The form starts from the image's fields only when an image is given and the action is `Update`, and from the defaults otherwise |
| `TransformationForm.WithAspectRatio` | app/components/shared/TransformationForm.tsx:75-80 | The new image has the option's ratio, width and height and keeps every other field of the previous image, or of `{}` when there was none |
| `TransformationForm.SelectedSizeAgrees` | app/components/shared/TransformationForm.tsx:72-80 | After a ratio is picked from a table filed by ratio, `GetImageSize` gives the chosen option's size for every transformation type |
| `TransformationForm.StageInput` | app/components/shared/TransformationForm.tsx:90-96 | The value lands at `[type].prompt` for the prompt field and at `[type].to` otherwise. Every other key of the staged edit, and of its `[type]` object, is kept. The `[type]` object holds exactly its previous keys (none when nothing was staged there) plus the target key |
| `TransformationForm.StageInputLastWins` | app/components/shared/TransformationForm.tsx:88-97 | Two keystrokes into one field stage the same edit as the last keystroke alone |
| `TransformationForm.FormState.constructor` | app/components/shared/TransformationForm.tsx:44-59 | The image starts as `data`, nothing is staged, the configuration is `config`, the form is not transforming, and the initial values follow `InitialValues` |
| `TransformationForm.FormState.SelectAspectRatio` | app/components/shared/TransformationForm.tsx:72-86 | The image takes the chosen option's ratio and size, and the type's default configuration is staged. Nothing else changes |
| `TransformationForm.FormState.ChangeInput` | app/components/shared/TransformationForm.tsx:88-100 | The staged edit becomes `StageInput` of the previous one, and nothing else changes |
| `TransformationForm.FormState.ChangePrompt` | app/components/shared/TransformationForm.tsx:168-178 | The prompt input writes `[type].prompt` |
| `TransformationForm.FormState.ChangeColor` | app/components/shared/TransformationForm.tsx:188-198 | The colour input always writes `recolor.to` |
| `TransformationForm.FormState.Transform` | app/components/shared/TransformationForm.tsx:102-114 | Sets `isTransforming` and makes the configuration `deepMerge(staged or {}, config)`, in which every staged value wins. It clears the staged edit and issues exactly one debit of `creditFee` for the user |
| `TransformationForm.FormState.ClickApply` | app/components/shared/TransformationForm.tsx:227-231 | The button acts only when not transforming and with an edit staged. Then it applies, leaves exactly one debit, and disables itself; otherwise nothing changes |
| `TransformationForm.FormState.RunStagingEffect` | app/components/shared/TransformationForm.tsx:116-120 | With an image present and type `restore` or `removeBackground`, the type's default configuration is staged; otherwise nothing changes |
| `TransformationForm.ApplyFiresOnce` | app/components/shared/TransformationForm.tsx:103-113 | After one enabled Apply click, any sequence of events (ratio picks from the table, inputs, prompt and colour changes, staging effects, further clicks) leaves exactly one debit, the configuration that click committed, and the button disabled, because `isTransforming` is never reset |

## Left out

- Interaction with the outside world is abstract:
  - The signature check is a parameter (`Verifier`) in place of the Svix library.
  - The metadata write after a create is a boolean that says whether it succeeded.
  - Reading headers and the body, and building `NextResponse` replies, are not modelled. Responses keep only their status and the record they carry, not their message text.
- The database connection cache (`lib/databse/mongoose.ts`), the connection check (`lib/databse/checkMongo.ts`), `revalidatePath`, and the `createdAt`/`updatedAt` timestamps are not modelled. They are I/O, caching across concurrent requests, and system-managed fields.
- The webhook's `body` (what the signature covers) and `payload` (the event that is dispatched) are separate fields of a `Request`. The model does not relate them, though the source parses the event from the body it verified.
- `ClerkWebhook.Classify`, `ClerkWebhook.Post`: they throw only for a missing secret. The handler's other throws are not modelled: a body that is not valid JSON (`route.ts:27`), a secret the Svix library rejects when it is constructed (`route.ts:30`), and an event without `data` (`route.ts:46`).
- Concurrency is not modelled. Each repository operation is one atomic step, so the race between `findOne` and `findByIdAndDelete` (`deletedUser` becoming `null`) is not captured.
- `_id` is a natural number handed out in sequence. A malformed id string, which the database would reject with a cast error, is not represented.
- `handleError`'s logging and the message prefix it adds are not modelled. Every failure is returned as a `Failure` with its cause, which stands for the rethrown error.
- `Utils.RemoveKeysFromQuery`: `qs.parse`, `qs.stringify` and `window.location` are not modelled. The method takes the parsed query and returns the pruned object instead of the URL string.
- `Utils.DeepMergeObjects`: arrays, which `typeof` also reports as objects, and inherited properties are not part of `JValue`. Aliasing is not captured either: a missing second argument gives back the first object itself, and the source shares unmerged nested objects.
- `Utils.GetImageSize`: sizes are integers. Floating-point values and `NaN` are not modelled, and neither are keys that would hit the option table's prototype.
- `TransformationForm.StageInput`: when the value at `[type]` is a string, spreading it in the source yields its characters under index keys. The model spreads every non-object value as `{}`.
- Not modelled in the form: rendering, the form library and schema wiring (`useForm`, `zodResolver`, `onChangeField`), `onSubmit` (which only logs), `isSubmitting`, and the image upload component. `useTransition` scheduling is also left out. The debit is recorded as an issued `updateCredits` request, and its outcome is not awaited.
- Timers, downloads and styling are not modelled: `debounce`'s timer, `download`, `formUrlQuery`, `cn`, `shimmer`, `toBase64` and `dataUrl`.
- The page header, the layout and the styling configuration are not modelled.
- `undefined` and `null` are both `JNull`, or an absent key.
- The option table, `creditFee` and the per-type default configuration come from a constants module that is not part of this model. They are parameters.
