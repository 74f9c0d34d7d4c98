# LeftOver screen: a Dafny model

This project models the logic of the "Sobra de Doses" (leftover vaccine
doses) registration screen of the saudetimon mobile app. The screen is a
React Native component. It keeps a patient record, five optional document
attachments, a busy flag, the list of vaccination groups with the selected
one, and whether the group picker modal is open. The model covers what its
event handlers do to that state:

- capturing a photo from the camera or the library;
- capturing a PDF with the document picker;
- typing into the form fields, three of which go through input masks;
- submitting: normalising the payload, raising the busy flag and lowering it
  on success and on failure;
- loading the group list and choosing the default group;
- opening and closing the picker modal, and selecting a group.

It also covers the pure expressions the screen computes:

- `uri.split('/').pop()` and `uri.split('.').pop()`, which give a file name
  and a MIME type;
- the `patientParsed` normalisation;
- the picker label from `groups.find(...)`;
- the modal's options from `groups.map(...)`.

Layout:

- `wrappers.dfy`: `Option`, for properties that may be `undefined`.
- `text.dfy` (module `Text`): `AfterLast`, JavaScript's `split` and `join`,
  and `toString` and parsing of integers. It also proves that `AfterLast` is
  what `split(...).pop()` gives.
- `patient.dfy` (module `Patient`): the `IPatient` record, field edits, the
  masks as uninterpreted values, and `Normalize`.
- `attachments.dfy` (module `Attachments`): `IAttachment` and how the name and
  type of a captured image are derived.
- `groups.dfy` (module `Groups`): `IGroup`, the first-match lookup behind the
  picker label, and the modal's option list.
- `screen.dfy` (module `Screen`): the screen's state as a value, one function
  per state change giving the next state, functions giving the events the
  submit and load handlers emit, and the lemmas about them.
- `leftover.dfy` (module `LeftOver`): class `Controller`. Its fields are the
  `useState` cells and its methods are the handlers. Each method that changes
  state is proved to take it to the value the matching `Screen` function
  gives; `Back` is proved to change no state. Alerts,
  `catchHandler` reports and `goBack` calls go into a ghost `events` log. Two
  client methods, `CaptureSession` and `RetrySession`, show what a caller can
  prove from the contracts alone.

What pickers and the server return is a parameter of each handler:
`ImageResult`, `DocumentResult`, `CreateOutcome` and `GroupsOutcome`.
`handleSubmit` is split at its `await` into `BeginSubmit` and `FinishSubmit`.
This shows that the busy flag stays up while the create call is pending.
`Submit` runs the two in sequence.

Three behaviours of the code that are easy to misread:

- A failed group fetch leaves `groups` as it was.
- `handleSubmit` never reads `loading`, so nothing stops a second submission.
- When the selection is still empty and the server returns an empty list,
  reading `data[0].id` throws after `setGroups(data)` has run. So the empty
  list is stored, the selection stays `''` and the error message is reported.

The image type is "image/" plus the text after the last '.' of the whole uri,
not of the file name. `ImageMimeIsFileExtension` proves that this is the file
name's extension whenever the file name has a dot.
`ImageMimeOfExtensionlessName` proves that otherwise, when some directory of
the uri has a dot, the type contains a '/'.

## Model

| member | source | states |
|---|---|---|
| Text.AfterLast | src/pages/LeftOver/index.tsx:93-94 | The result has no separator, is no longer than the string, and is either as long as the string or preceded by a separator; `AfterLastIsLastPiece` proves it is the suffix after the last separator. |
| Text.AfterLastIsLastPiece | src/pages/LeftOver/index.tsx:93-94 | The piece after the last separator has no separator, is a suffix of the uri, and is either the whole uri or starts right after a separator. |
| Text.Split | src/pages/LeftOver/index.tsx:93-94 | `split` always gives at least one piece, so `pop()` is never `undefined`. |
| Text.SplitSingle | src/pages/LeftOver/index.tsx:93-94 | `split` gives a single piece exactly when the separator does not occur. |
| Text.JoinSplit | src/pages/LeftOver/index.tsx:93-94 | Joining the pieces of a split with the separator gives back the original string. |
| Text.SplitPiecesAreSeparatorFree | src/pages/LeftOver/index.tsx:93-94 | No piece of a split contains the separator. |
| Text.SplitPopIsAfterLast | src/pages/LeftOver/index.tsx:93-94 | The last piece of `s.split(sep)` is `AfterLast(s, sep)`, for every string and separator. |
| Text.AfterLastNested | src/pages/LeftOver/index.tsx:93-94 | If the part after the last '/' contains a '.', the part after the last '.' of the whole uri lies inside it. |
| Text.AfterLastCrossesSeparator | src/pages/LeftOver/index.tsx:93-94 | If the uri has a '.' but the part after its last '/' does not, the part after the last '.' contains a '/'. |
| Text.IntToString | src/pages/LeftOver/index.tsx:173 | `toString` of an integer is non-empty and starts with '-' exactly when the integer is negative. |
| Text.NatToStringIsDigits | src/pages/LeftOver/index.tsx:173 | The decimal rendering of a natural number is a non-empty run of digits with no leading zero. |
| Text.ParseNatToString | src/pages/LeftOver/index.tsx:173 | Reading back the decimal rendering of a natural number gives that number. |
| Text.ParseIntToString | src/pages/LeftOver/index.tsx:173 | `id.toString()` is a well-formed integer literal that reads back as `id`. |
| Text.IntToStringInjective | src/pages/LeftOver/index.tsx:209 | Two ids have the same string exactly when they are equal, so `id.toString() === selectedGroup` compares ids. |
| Patient.Stored | src/pages/LeftOver/index.tsx:225-349 | The CPF, SUS card and phone inputs store their masked text; every other input stores the text as typed. |
| Patient.With | src/pages/LeftOver/index.tsx:225-349 | `{ ...patient, f: v }` gives field `f` the value `v` and leaves every other field as it was. |
| Patient.EditOverwrites | src/pages/LeftOver/index.tsx:225-349 | Editing the same field twice keeps only the second value. |
| Patient.EditsCommute | src/pages/LeftOver/index.tsx:225-349 | Edits of two different fields give the same record in either order. |
| Patient.Normalize | src/pages/LeftOver/index.tsx:134-139 | The payload has `numberMask` of cpf and of phone. Its susCard is `numberMask(susCard)` when that is non-empty and absent otherwise. Every other field is the stored value. |
| Patient.NormalizeDropsEmptySusCard | src/pages/LeftOver/index.tsx:137 | An absent or empty SUS card number is sent as absent. |
| Patient.NormalizeAfterTextEdit | src/pages/LeftOver/index.tsx:134-139 | Normalising after editing a field that is not masked gives the normalised record with that one field changed. |
| Attachments.ImageName | src/pages/LeftOver/index.tsx:93 | The file name has no '/' and is the suffix of the uri after its last '/', or the whole uri. |
| Attachments.ImageMime | src/pages/LeftOver/index.tsx:94 | The type is "image/" followed by a dot-free suffix of the uri that is either the whole uri or starts right after a '.'. |
| Attachments.ImageAttachment | src/pages/LeftOver/index.tsx:91-96 | A captured image is stored with its uri, a slash-free tail of the uri (the whole uri or what follows a '/') as name, and a type starting with "image/". |
| Attachments.DocumentAttachment | src/pages/LeftOver/index.tsx:121-125 | A picked document is stored with the picker's uri and display name and the type "application/pdf". |
| Attachments.ImageAttachmentFromSplit | src/pages/LeftOver/index.tsx:93-94 | The stored name is the last piece of `uri.split('/')` and the stored type is "image/" plus the last piece of `uri.split('.')`. |
| Attachments.ImageMimeIsFileExtension | src/pages/LeftOver/index.tsx:93-94 | When the file name contains a '.', the type is "image/" plus the file name's extension. |
| Attachments.ImageMimeOfExtensionlessName | src/pages/LeftOver/index.tsx:93-94 | When only a directory of the uri has a '.', the part of the type after "image/" contains a '/'. |
| Groups.Find | src/pages/LeftOver/index.tsx:209 | `find` gives nothing exactly when no group's id string is the selection, and otherwise the first group whose id string is the selection. |
| Groups.FindIndex | src/pages/LeftOver/index.tsx:209 | Gives the position of the first group whose id string is the selection, or the list length when there is none. |
| Groups.Label | src/pages/LeftOver/index.tsx:208-211 | The label is absent exactly when no group has the selected key. Otherwise it is the name of the first group with that key. |
| Groups.PickerData | src/pages/LeftOver/index.tsx:447-450 | One option per group, in order, with the id string as value and the group name as option. |
| Groups.PickedItemIsLabelled | src/pages/LeftOver/index.tsx:442-451 | With distinct ids, choosing the i-th option of the modal makes the picker show the i-th group's name. |
| Groups.FirstGroupIsLabelled | src/pages/LeftOver/index.tsx:208-211 | Selecting the first group's id string labels the picker with the first group's name. |
| Screen.WithAttachment | src/pages/LeftOver/index.tsx:57-82 | For a field number in 0..4 only that slot changes, to `{uri, name, type}`. Any other number changes nothing. No other state changes. |
| Screen.ImageCaptured | src/pages/LeftOver/index.tsx:84-114 | A cancelled capture or a field number outside 0..4 changes nothing. A picked image fills only the chosen slot with the attachment derived from its uri. No other state changes. |
| Screen.DocumentCaptured | src/pages/LeftOver/index.tsx:116-129 | A cancelled pick or a field number outside 0..4 changes nothing. A picked document fills only the chosen slot with its uri, name and "application/pdf". No other state changes. |
| Screen.FieldEdited | src/pages/LeftOver/index.tsx:225-349 | An edit stores the typed text in its own field, masked by cpfMask, susCardMask or phoneMask for those three fields. Other fields and all other state are unchanged. |
| Screen.ModalOpened | src/pages/LeftOver/index.tsx:205-207 | Afterwards the modal is open. Nothing else changes. |
| Screen.ModalClosed | src/pages/LeftOver/index.tsx:53-55 | Afterwards the modal is closed. Nothing else changes. |
| Screen.ModalClosedIdempotent | src/pages/LeftOver/index.tsx:53-55 | Closing the modal twice is the same as closing it once. |
| Screen.GroupSelected | src/pages/LeftOver/index.tsx:442-446 | Afterwards the selection is the chosen value. Nothing else changes. |
| Screen.PickerLabel | src/pages/LeftOver/index.tsx:204-211 | The picker has a label exactly when a list is stored and some group's id string is the selection; the label is then the name of the first such group. |
| Screen.SubmitRequest | src/pages/LeftOver/index.tsx:134-153 | The create call gets the normalised patient, category "2", the selected group, "false" and the five slots as they are. |
| Screen.SubmitStarted | src/pages/LeftOver/index.tsx:132 | Afterwards the busy flag is up. Nothing else changes. |
| Screen.SubmitSettled | src/pages/LeftOver/index.tsx:162-164 | Afterwards the busy flag is down. Nothing else changes. |
| Screen.SubmitKeepsForm | src/pages/LeftOver/index.tsx:131-165 | A submission, on either outcome, leaves the patient and the five slots as they were and only lowers the busy flag. |
| Screen.SubmitEvents | src/pages/LeftOver/index.tsx:154-164 | On success exactly two events: the server's message is alerted verbatim, then `goBack`. On failure exactly one event: the fixed message is reported, with no alert and no navigation. |
| Screen.GroupsLoaded | src/pages/LeftOver/index.tsx:167-180 | A failed fetch changes nothing. A successful one stores the list. An empty selection becomes the first id when the list is non-empty. A non-empty selection is kept. Nothing else changes. |
| Screen.GroupsEvents | src/pages/LeftOver/index.tsx:169-179 | The fixed message is reported exactly when the fetch fails, or when the selection is empty and the list is empty. |
| Screen.RecaptureOverwrites | src/pages/LeftOver/index.tsx:57-82 | Capturing into a slot that already holds an attachment gives the same state as the second capture alone. |
| Screen.CapturesCommute | src/pages/LeftOver/index.tsx:57-82 | Captures into two different field numbers give the same state in either order. |
| Screen.ImageCaptureStores | src/pages/LeftOver/index.tsx:84-114 | A successful image capture fills only the chosen slot, with the attachment derived from the uri. Nothing else changes. |
| Screen.DocumentCaptureStores | src/pages/LeftOver/index.tsx:116-129 | A successful document capture fills only the chosen slot, with the uri, the picker's name and "application/pdf". |
| Screen.CancelledCaptureKeepsSlot | src/pages/LeftOver/index.tsx:84-129 | A cancelled capture of either kind changes nothing, so a slot filled earlier keeps its attachment. |
| Screen.FirstLoadLabelsFirstGroup | src/pages/LeftOver/index.tsx:167-173 | A non-empty first load selects the first group's id string, labels the picker with its name and reports nothing. |
| Screen.ReloadKeepsSelection | src/pages/LeftOver/index.tsx:173 | A load never overrides a non-empty selection, whatever its outcome. |
| Screen.EmptyListIsStoredThenReported | src/pages/LeftOver/index.tsx:170-179 | With an empty selection, an empty list is stored, the selection stays empty, the picker has no label and the fixed message is reported. |
| Screen.InitialHasNoSelection | src/pages/LeftOver/index.tsx:49-50 | On a freshly mounted screen no list is stored and the selection is empty. |
| Screen.CapturesKeepNoSelectionBeforeLoad | src/pages/LeftOver/index.tsx:57-129 | Captures never set a selection while no list is stored. |
| Screen.NoSelectionBeforeLoadPreserved | src/pages/LeftOver/index.tsx:442-446 | Edits, the modal, submission and loading keep "no list stored implies an empty selection"; selecting a group keeps it once a list is stored, which the `groups &&` render guard ensures, so a group cannot be selected before the list loads. |
| LeftOver.Controller.constructor | src/pages/LeftOver/index.tsx:42-51 | Every state cell starts at its `useState` default and the log is empty. |
| LeftOver.Controller.SetAttachments | src/pages/LeftOver/index.tsx:57-82 | The new state is `WithAttachment` of the old one and nothing is logged. |
| LeftOver.Controller.PickImage | src/pages/LeftOver/index.tsx:84-114 | The new state is `ImageCaptured` of the old one and the picker result. |
| LeftOver.Controller.PickDocument | src/pages/LeftOver/index.tsx:116-129 | The new state is `DocumentCaptured` of the old one and the picker result. |
| LeftOver.Controller.SetField | src/pages/LeftOver/index.tsx:222-349 | The new state is `FieldEdited` of the old one with the screen's masks. |
| LeftOver.Controller.OpenPicker | src/pages/LeftOver/index.tsx:205-207 | The new state is `ModalOpened` of the old one. It is reachable only once a list is stored. |
| LeftOver.Controller.CloseModal | src/pages/LeftOver/index.tsx:53-55 | The new state is `ModalClosed` of the old one. |
| LeftOver.Controller.SelectGroup | src/pages/LeftOver/index.tsx:442-446 | The new state is `GroupSelected` of the old one. It is reachable only once a list is stored. |
| LeftOver.Controller.BeginSubmit | src/pages/LeftOver/index.tsx:131-153 | The new state is `SubmitStarted` of the old one, and the call returns `SubmitRequest` of the state before it. |
| LeftOver.Controller.FinishSubmit | src/pages/LeftOver/index.tsx:155-164 | The new state is `SubmitSettled` of the old one on both outcomes, and the log grows by `SubmitEvents`. |
| LeftOver.Controller.Submit | src/pages/LeftOver/index.tsx:131-165 | Sends `SubmitRequest` of the state before the call and logs `SubmitEvents`. Afterwards the state is `SubmitSettled(SubmitStarted(...))` of the state before. |
| LeftOver.Controller.LoadGroups | src/pages/LeftOver/index.tsx:167-180 | The new state is `GroupsLoaded` of the old one and the log grows by `GroupsEvents`. |
| LeftOver.Controller.Back | src/pages/LeftOver/index.tsx:431-435 | The back button logs one `goBack` and changes no state. |

## Left out

- Rendering, styles, images, `StatusBar`, the circular progress indicator and the `uploadProgress` value: presentation only.
- `launchCameraAsync`, `launchImageLibraryAsync` and `getDocumentAsync` are operating-system integrations. Their results are handler parameters. Camera and gallery capture share one method, `PickImage`, because the two handlers differ only in the picker they call.
- `createPatientCall` and `getGroupsCall` are network calls reached through a React context. Each is an outcome parameter. The multipart upload and its progress reporting are not modelled. The request carries every argument except the constant `undefined` fifth one.
- Patient.Masks: the masks module is not part of this model. `numberMask`, `cpfMask`, `phoneMask` and `susCardMask` are arbitrary functions, so nothing about their output (digits only, length, idempotence, the phone examples) is assumed or proved. `numberMask` is applied to fields the user may never have typed. The model lets it return any optional value for an absent field; it does not model it throwing outside the `try`, which would leave `loading` raised.
- `catchHandler`, `Alert` and navigation are not part of this model. Their calls are ghost log entries with the message that was passed. The raw error is not recorded.
- The `AttachmentField`, `CustomPicker` and `CustomPickerModal` components are not part of this model. Any clearing of a slot through the `setField` they receive, and which values the modal passes to `setValue`, are not covered.
- React effect scheduling: the effect runs again whenever `selectedGroup` changes. `LoadGroups` models one run of its body. Also left out: async interleaving of handlers, and the render-time snapshots their closures capture. Handlers are modelled as running one after another on the current state.
- Text.IntToString: group ids are modelled as integers. JavaScript's rendering of non-integral or very large numbers (exponent notation) is not modelled.
- Attachment: the TypeScript field `type` is called `mimeType`, because `type` is reserved in Dafny.
