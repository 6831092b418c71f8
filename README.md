# Backdrop overlay editor — a Dafny model

This project models the logic of a browser image-composition editor and the
small services around it:

- the **editor scene**: a fixed 1280×720 canvas with one background slot, an
  ordered list of placed images (later ones paint on top), an optional active
  object and the corner-radius slider (0..50). Backgrounds are scaled to
  *cover* the canvas, uploads to *fit* inside 70% of it, and the active image
  gets a rounded-rectangle clip built from its own natural size;
- the **background gallery**: eleven presets plus a user list of custom entries,
  with the display name of an upload derived by stripping its final extension;
- the **credits hook**: the client copy of the user's credit record, its
  creation with 10 credits, realtime replacement and the guarded deduction;
- the **payment webhook**: a decision table from request to HTTP response;
- the **sign-up form**: two ordered password checks gating the auth call.

Files: `base.dfy` (Option, file info, the `image/` MIME test), `scaling.dfy`,
`image_editor.dfy`, `background_catalogue.dfy`, `credits_hook.dfy`,
`dodo_webhook.dfy`, `sign_up.dfy`. Scale arithmetic is exact (`real`).
Asynchronous decodes, storage, database, auth and RPC results are parameters
of the operations that consume them (decoded image width/height, select /
insert / update outcomes, `rpcFails`, the auth outcome, the JSON-parse result).

The clip rectangle uses the image's natural `width`/`height` and the radius as
given, with no clamping; the slider range is 0..50.

## Model

| member | source | states |
|---|---|---|
| Base.IsImageFile | src/components/ImageEditor.tsx:83 | a file is accepted as an image exactly when its MIME type's first six characters are "image/" (the same test is at src/components/BackgroundSelector.tsx:118) |
| Scaling.CoverScale | src/components/ImageEditor.tsx:178-182 | the cover scale makes the scaled image at least as wide and as tall as the canvas, and meets one of the two extents exactly |
| Scaling.CoverScaleIsLeast | src/components/ImageEditor.tsx:180-182 | every scale that covers both extents is at least the cover scale (it is the smallest covering scale) |
| Scaling.FitScale | src/components/ImageEditor.tsx:101-103 | the fit scale keeps the image within 70% of the canvas width and height, and reaches 70% on one of them |
| Scaling.FitScaleIsGreatest | src/components/ImageEditor.tsx:103 | every scale that keeps the image within 70% of both extents is at most the fit scale |
| Scaling.ScalesPositive | src/components/ImageEditor.tsx:101-103 | on a canvas and an image of positive size both scales are positive |
| ImageEditor.CoverPlaced | src/components/ImageEditor.tsx:176-194 | a placed background has equal x/y scale, covers the canvas and meets one extent exactly (so its scale is the cover scale), is centred at (640, 360), is neither selectable nor evented and has no clip |
| ImageEditor.FitPlaced | src/components/ImageEditor.tsx:99-112 | a placed upload has equal x/y scale, fits within 70% of the canvas (touching 70% on one axis), is centred and keeps its natural size |
| ImageEditor.WithCornerClip | src/components/ImageEditor.tsx:129-152 | an image gets a clip with rx = ry = radius and its own natural width/height when radius > 0, no clip when radius = 0; a non-image is untouched; nothing but the clip changes |
| ImageEditor.CornerClipLastWins | src/components/ImageEditor.tsx:129-156 | re-running the clip rule with a new radius gives the same object as running it once with that radius |
| ImageEditor.CornerClipIgnoresPlacement | src/components/ImageEditor.tsx:135-142 | the clip does not depend on the object's scale or position |
| ImageEditor.RemoveAt | src/components/ImageEditor.tsx:162 | removing index i keeps the objects before i and shifts the ones after it down by one |
| ImageEditor.Editor.constructor | src/components/ImageEditor.tsx:15-18 | before mount: no canvas, no objects, no selection, radius 0, selected background id "mountain-hiker" |
| ImageEditor.Editor.Mount | src/components/ImageEditor.tsx:21-28 | mounting creates an empty canvas without background and keeps the radius and background id |
| ImageEditor.Editor.ApplyDefaultBackground | src/components/ImageEditor.tsx:31-52 | the decoded default image becomes the cover-placed background and the id "mountain-hiker" is selected; objects and selection are unchanged |
| ImageEditor.Editor.SelectBackground | src/components/ImageEditor.tsx:173-196 | with a canvas, the picked image becomes the cover-placed background and its id is selected; without one nothing changes; objects never change |
| ImageEditor.Editor.ApplyCornerRadius | src/components/ImageEditor.tsx:129-156 | the effect replaces exactly the active object by its clipped form and leaves every other object alone |
| ImageEditor.Editor.UploadImage | src/components/ImageEditor.tsx:79-116 | a missing file, missing canvas or non-image is refused with no change; otherwise the fit-placed image, clipped for the current radius, is appended last and becomes active, earlier objects unchanged |
| ImageEditor.Editor.Select | src/components/ImageEditor.tsx:55-61 | the selected object becomes active and receives the current radius's clip; nothing else changes |
| ImageEditor.Editor.ClearSelection | src/components/ImageEditor.tsx:63-65 | the selection is cleared and the objects keep their clips |
| ImageEditor.Editor.SetBorderRadius | src/components/EditorPanel.tsx:82-89 | a slider value 0..50 becomes the radius and the active image (only) is re-clipped with it |
| ImageEditor.Editor.DeleteActive | src/components/ImageEditor.tsx:159-164 | with nothing active it is a no-op; otherwise exactly the active object is removed, the rest keep their order, and the selection is cleared |
| ImageEditor.Editor.Reset | src/components/ImageEditor.tsx:206-230 | all objects and the selection go, the default image is cover-placed again, the selected background id and radius are kept |
| ImageEditor.Editor.Download | src/components/ImageEditor.tsx:239-249 | with a canvas, the export is PNG, quality 1, multiplier 2, 2560×1440 pixels, named edited-image.png; without one there is no export |
| BackgroundCatalogue.PresetsFacts | src/components/BackgroundSelector.tsx:19-86 | there are 11 presets with distinct ids, the first is "mountain-hiker" with the editor's default image, and none offers deletion |
| BackgroundCatalogue.CanDelete | src/components/BackgroundSelector.tsx:231 | an entry offering deletion is never one of the presets |
| BackgroundCatalogue.DecimalString | src/components/BackgroundSelector.tsx:131 | the id's timestamp is written as a non-empty string of decimal digits that denotes exactly that timestamp, with no leading zero |
| BackgroundCatalogue.TrailingRunLength | src/components/BackgroundSelector.tsx:132 | the result is the length of the longest suffix free of '/' and '.', and the character before it is one of them |
| BackgroundCatalogue.StripExtension | src/components/BackgroundSelector.tsx:132 | the name changes exactly when `\.[^/.]+$` matches, and then it is cut at the match |
| BackgroundCatalogue.StripAppendedExtension | src/components/BackgroundSelector.tsx:132 | stripping `base + "." + ext` gives back `base` for any non-empty ext free of '.' and '/' |
| BackgroundCatalogue.StripExtensionExamples | src/components/BackgroundSelector.tsx:132 | "a.b.png"→"a.b", "noext"→"noext", "x."→"x.", ".bashrc"→"", "dir.d/file" unchanged |
| BackgroundCatalogue.NewCustomEntry | src/components/BackgroundSelector.tsx:130-135 | a new entry has the id "custom-" followed by the timestamp's decimal digits, the stripped file name, the uploaded data as image, and category "Custom" (so it is deletable) |
| BackgroundCatalogue.DeleteById | src/components/BackgroundSelector.tsx:153 | the result holds exactly the entries whose id differs, and is no longer than the input |
| BackgroundCatalogue.DeleteUnchangedIffAbsent | src/components/BackgroundSelector.tsx:153 | deleting leaves the list unchanged if and only if no entry has the id |
| BackgroundCatalogue.DeleteDistributes | src/components/BackgroundSelector.tsx:153 | deleting from a concatenation is the concatenation of the deletions, so kept entries keep their order |
| BackgroundCatalogue.DeleteIdempotent | src/components/BackgroundSelector.tsx:153 | deleting an id twice equals deleting it once |
| BackgroundCatalogue.AllBackgrounds | src/components/BackgroundSelector.tsx:163 | the shown list is the custom entries followed by the 11 presets |
| BackgroundCatalogue.DeletableExactlyCustom | src/components/BackgroundSelector.tsx:231-243 | when all custom entries are of category "Custom", an entry of the shown list offers deletion exactly when it is one of the custom prefix |
| BackgroundCatalogue.LoadedCustom | src/components/BackgroundSelector.tsx:98-107 | a missing or empty stored value, or one that fails to parse, leaves the list empty; otherwise the parsed list is used |
| BackgroundCatalogue.BackgroundSelector.constructor | src/components/BackgroundSelector.tsx:95-107 | on mount the custom list is what local storage yields |
| BackgroundCatalogue.BackgroundSelector.Displayed | src/components/BackgroundSelector.tsx:163 | the displayed list is the current custom entries followed by the 11 presets |
| BackgroundCatalogue.BackgroundSelector.UploadCustomBackground | src/components/BackgroundSelector.tsx:114-139 | a missing or non-image file changes nothing; otherwise exactly one new entry is appended and the list is persisted |
| BackgroundCatalogue.BackgroundSelector.DeleteCustomBackground | src/components/BackgroundSelector.tsx:152-155 | the list becomes its filter by id and is persisted |
| CreditsHook.InitialRecord | src/hooks/useUserCredits.ts:36-47 | a created record belongs to the user, has 10 credits and both upgrade flags false |
| CreditsHook.MayDeduct | src/hooks/useUserCredits.ts:67-71 | a deduction passes the guard only with a user and a record, and then the balance after it is not negative |
| CreditsHook.Deducted | src/hooks/useUserCredits.ts:76-78 | the new balance plus the amount is the old balance, and no other field changes |
| CreditsHook.AfterRealtime | src/hooks/useUserCredits.ts:119-125 | UPDATE and INSERT events with a row replace the record wholesale; other events change nothing |
| CreditsHook.CreditsState.constructor | src/hooks/useUserCredits.ts:15-17 | the hook starts with no record and not loading |
| CreditsHook.CreditsState.FetchCredits | src/hooks/useUserCredits.ts:20-63 | without a user nothing happens; a found row is kept; "no row" (the same error code also means more than one row) plus a successful insert gives the initial record; other errors leave the record; loading ends false |
| CreditsHook.CreditsState.DeductCredits | src/hooks/useUserCredits.ts:66-94 | true exactly when the guard passes and the update succeeds; then the balance is old − amount (≥ 0), otherwise the record is unchanged; the amount defaults to 1 |
| CreditsHook.CreditsState.OnRealtime | src/hooks/useUserCredits.ts:106-125 | with a user, the record follows the realtime rule; without one there is no subscription and nothing changes |
| CreditsHook.CreditsState.OnUserChange | src/hooks/useUserCredits.ts:97-103 | sign-out resets the record to none; sign-in fetches it: a found row or a created initial record replaces the record, and a failed fetch keeps the previous record, even one that belonged to the previous user |
| DodoWebhook.PaymentType | supabase/functions/dodo-webhook/index.ts:33-41 | the monthly product maps to "monthly", the lifetime product to "lifetime", every other product to none |
| DodoWebhook.Truthy | supabase/functions/dodo-webhook/index.ts:27 | a user id is missing exactly when it is absent or the empty string |
| DodoWebhook.Billable | supabase/functions/dodo-webhook/index.ts:24-41 | a request that passes every check carries payment data whose product is the monthly or the lifetime product |
| DodoWebhook.Handle | supabase/functions/dodo-webhook/index.ts:9-72 | OPTIONS answers "ok"; the procedure is called exactly for a completed payment with a user id and a known product, with the type that product maps to (monthly or lifetime) and the user id passed on; its error gives 500, success 200; another event type, or a payment.completed event whose status is not "completed", gives 200 "Event not processed"; a payment.completed event without data, an unparseable body or a null body gives 500 |
| DodoWebhook.UserIdCheckedFirst | supabase/functions/dodo-webhook/index.ts:27-30 | a completed payment without a user id gives 400 "No user ID provided" whatever its product |
| DodoWebhook.UnknownProductRefused | supabase/functions/dodo-webhook/index.ts:38-41 | a completed payment with a user id and an unknown product gives 400 "Unknown product" and no call |
| DodoWebhook.RpcOutcomeIrrelevantUnlessCalled | supabase/functions/dodo-webhook/index.ts:46-61 | when the procedure is not called its outcome cannot change the response |
| SignUp.ValidationError.Message | src/pages/SignUp.tsx:24-40 | each failed check has a non-empty message, and "Passwords do not match" is reported exactly for the mismatch |
| SignUp.Validate | src/pages/SignUp.tsx:24-40 | no error exactly when the passwords match and have at least 6 characters; a mismatch is reported before the length |
| SignUp.SignUpPage.constructor | src/pages/SignUp.tsx:12-17 | empty fields, not loading, no request sent |
| SignUp.SignUpPage.EditFields | src/pages/SignUp.tsx:12-14 | the form holds the entered email and passwords |
| SignUp.SignUpPage.HandleSignUp | src/pages/SignUp.tsx:21-77 | a failed check reports its message and sends nothing; otherwise one request with the entered email and password is sent, an error is reported and the page stays, success navigates to /signin; loading is off afterwards |

## Left out

- Rendering: the canvas library's drawing, the pixels of the exported data URL, the on-screen `scale(0.65)` view transform, the canvas's white fill colour and all toast messages of the editor and gallery.
- Image decoding and file reading are asynchronous in the source; the model applies each decode's result at once, so the order of overlapping decodes (the last one to finish wins) is not captured.
- ImageEditor.Editor.UploadImage, ImageEditor.Editor.ApplyDefaultBackground, ImageEditor.Editor.SelectBackground, ImageEditor.Editor.Reset: the decoded width and height are required to be positive; the source does not guard zero and would divide by it.
- ImageEditor.Editor.UploadImage, ImageEditor.Editor.SelectBackground, ImageEditor.Editor.ApplyDefaultBackground, ImageEditor.Editor.Reset: every image decode is assumed to succeed. A rejected decode in the source adds no object and changes no background, which the model does not show (an "image/" file the browser cannot decode is still reported as added).
- BackgroundCatalogue.BackgroundSelector.UploadCustomBackground: the file read is assumed to succeed; in the source a failed read adds no entry and writes nothing to storage.
- ImageEditor.Editor.Reset: the source clears the canvas, background included, before the default image is decoded, so the background is missing until the decode finishes and stays missing if it fails; the model puts the background back in the same step.
- ImageEditor.Editor.Select: a multi-object selection is modelled by the first selected object only, as the source keeps only `selected[0]`.
- Objects are tracked by index in the object list rather than by reference; the editor only ever adds images, so the non-image case of the clip rule is reached only through `WithCornerClip`.
- The selection changes on upload, delete and reset rely on the canvas library's selection events; they are modelled as the resulting state.
- BackgroundCatalogue.NewCustomEntry: the id's timestamp is a parameter (`Date.now()` is a clock); uniqueness of ids is not modelled.
- JSON encoding of the custom list, a stored value that parses to something other than a list, and the upload handler's reading of the list captured when the file was chosen.
- CreditsHook: the database, its updated timestamps and the non-atomic read-modify-write of the balance (a concurrency concern); `loading` is only observable while a fetch is in flight, which the atomic model does not show. Balances are integers.
- DodoWebhook.Handle: a failure to create the database client, non-string `custom_data` values, logging and the CORS headers on every response are not modelled.
- SignUp.Validate: password length is the number of characters, not of UTF-16 code units; the redirect URL passed to the auth service, Google sign-up and the password-reset page are not modelled.
- Marketing pages, pricing, the upgrade dialog and the editor panel's layout are display code; only the panel's slider range is used.
