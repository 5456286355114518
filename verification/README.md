# Note controller of the web-notes application, modelled in Dafny

The web-notes application lets authenticated users list, create, edit, delete and share text
notes. Its request handler, `NoteController`, routes eight HTTP endpoints, delegates to a note
service, a user service, a validator and a content formatter, and keeps one session attribute,
`"note"`: a draft of the note whose last submission the validator rejected, so that the form can
be shown again with the user's input.

This project models that handler as a state machine over

- the note store, a `map<string, Note>` keyed by note id, and
- the session's draft slot, an `Option<Note>`.

Each route is a pure function from the route's parameters and the state to a `Transition`: a
`Response` (`Redirect(target)`, `View(name, model)` or `ErrorView(backLink, errMes)`) and the next
state. The collaborators are arbitrary function-typed fields of a `Services` record, so every
property holds whatever the collaborators compute:

- the user-id lookup;
- the note service's `listAll`, `add`, `update` and `deleteById`;
- the validator;
- the two formatters.

Reads of the store (`getById`, `isNoteExist`) are map lookup and membership.

Files:

- `wrappers.dfy` defines `Option`.
- `ascii_case.dfy` defines case-insensitive comparison on ASCII.
- `notes.dfy` holds the data model: notes, state, collaborators, requests and responses.
- `back_link.dfy` builds the error view's back-links and parses them back. The parser is the model's own exact inverse of the link builder. It is not the servlet's query decoding: an id containing `&`, `#`, `+` or `%` comes back as written, whereas the edit route's `id` parameter would be cut or decoded.
- `note_controller.dfy` has one function per route and the dispatcher `Handle`.
- `sessions.dfy` covers runs of requests and the draft-slot lifecycle across them.

A successful create or edit does not write the draft slot (NoteController.java:71-73, 96-99).
The list view, which the success redirect leads to, empties it
(`Sessions.AcceptedSubmitThenListClears`).

## Model

| member | source | states |
|---|---|---|
| `NoteController.ListNotes` | src/main/java/webnotes/controller/NoteController.java:32-39 | The list view always leaves the draft slot empty, whatever it held, and does not modify the store; its only model entry is the formatted list of the principal's notes |
| `NoteController.RootRedirect` | src/main/java/webnotes/controller/NoteController.java:41-44 | The root route always redirects to `/note/list` and leaves store and draft unchanged |
| `NoteController.DeleteNote` | src/main/java/webnotes/controller/NoteController.java:46-50 | Delete always redirects to the list, hands the id to the store's delete with no existence or ownership check, and never touches the draft |
| `NoteController.DeleteOfUnknownIdRedirects` | src/main/java/webnotes/controller/NoteController.java:46-50 | For an id the store does not hold, the answer is the plain redirect, whatever `deleteById` returns. This is a corollary of `DeleteNote`'s contract |
| `NoteController.ShowEditPage` | src/main/java/webnotes/controller/NoteController.java:52-63 | The edit form is read-only. A held draft is shown regardless of the id. Without a draft, the stored note is shown. The answer is a redirect to the list exactly when there is no draft and the id is not stored |
| `NoteController.ShowEditIgnoresIdWhileDrafting` | src/main/java/webnotes/controller/NoteController.java:54-62 | While a draft is held, any two ids give the same edit-form transition |
| `NoteController.EditNote` | src/main/java/webnotes/controller/NoteController.java:65-79 | An unknown id redirects with nothing changed. A valid note is written through the store's update and the draft is left as it was. A rejected note leaves the store alone, becomes the draft, and yields the error view with the edit back-link and the validator's messages in order |
| `NoteController.EditOfUnknownIdIgnoresValidator` | src/main/java/webnotes/controller/NoteController.java:67-70 | The existence check runs before validation: for an unknown id, replacing the validator changes nothing |
| `NoteController.ShowCreatePage` | src/main/java/webnotes/controller/NoteController.java:81-91 | The create form is read-only. `isEmpty` is true exactly when the draft slot is empty; a held draft is carried as the form's note with `isEmpty` false, and no note is carried otherwise |
| `NoteController.CreateNote` | src/main/java/webnotes/controller/NoteController.java:93-105 | A valid note is added to the store for the principal's user id, with the draft untouched. A rejected note leaves the store alone, becomes the draft, and yields the error view with back-link `/note/create` and the validator's messages |
| `NoteController.ShowSharePage` | src/main/java/webnotes/controller/NoteController.java:107-118 | The share page never changes state. `isPublic` is true exactly when the note exists and its access equals "public" ignoring case; the public model carries the formatted note, the other carries the fixed message |
| `NoteController.SharePrivateLooksMissing` | src/main/java/webnotes/controller/NoteController.java:109-117 | A missing id and a private note give identical share responses |
| `NoteController.ShareIgnoresDraft` | src/main/java/webnotes/controller/NoteController.java:107-118 | The share response does not depend on the session's draft |
| `NoteController.IsPublicAccess` | src/main/java/webnotes/controller/NoteController.java:110 | The share test accepts an access level exactly when its case-folded form is `public` |
| `AsciiCase.EqualsIgnoreCase` | src/main/java/webnotes/controller/NoteController.java:110 | The character-by-character case-insensitive comparison is true exactly when both strings fold to the same string |
| `BackLink.EditLink` | src/main/java/webnotes/controller/NoteController.java:77 | The edit back-link is `/note/edit?id=` followed by the id, unescaped, so it is exactly as long as the prefix plus the id |
| `BackLink.EditLinkRoundTrip` | src/main/java/webnotes/controller/NoteController.java:77 | The edit back-link is `/note/edit?id=` followed by the id, and parsing it gives the id back |
| `BackLink.EditLinkIdComplete` | src/main/java/webnotes/controller/NoteController.java:77 | Every address the parser accepts is the back-link of the id it returns |
| `BackLink.EditLinkInjective` | src/main/java/webnotes/controller/NoteController.java:77 | Different note ids get different edit back-links |
| `BackLink.EditLinkIsNotCreateLink` | src/main/java/webnotes/controller/NoteController.java:77-103 | No edit back-link equals the create back-link, and the parser rejects the create back-link |
| `NoteController.ErrorViewOnlyOnRejection` | src/main/java/webnotes/controller/NoteController.java:65-105 | The error view is answered exactly for a submission the validator rejects whose edit id, if any, is stored. It carries exactly the validator's non-empty message list |
| `NoteController.HandleDraft` | src/main/java/webnotes/controller/NoteController.java:32-118 | Per request: the list empties the draft slot, an error view fills it with the submitted note, and every other answer leaves it unchanged |
| `NoteController.ReadOnlyRoutes` | src/main/java/webnotes/controller/NoteController.java:32-118 | Only delete, edit submission and create submission can change the store |
| `NoteController.Handle` | src/main/java/webnotes/controller/NoteController.java:25-118 | The route table. Each page route renders only its own template (`list`, `edit`, `create`, `share`), only the two submissions can answer with the error view, and every redirect targets `/note/list` |
| `Sessions.RunDraft` | src/main/java/webnotes/controller/NoteController.java:33-104 | After any sequence of requests, the draft is the note of the last submission answered with the error view, unless a list request came later; if neither happened, the initial draft is kept |
| `Sessions.ListLeavesNoDraft` | src/main/java/webnotes/controller/NoteController.java:33-34 | Any run that ends with the list view ends with an empty draft slot |
| `Sessions.HandleKeepsDraftRejected` | src/main/java/webnotes/controller/NoteController.java:70-101 | Every route keeps the invariant that the draft slot holds only a note the validator rejects |
| `Sessions.RunKeepsDraftRejected` | src/main/java/webnotes/controller/NoteController.java:70-101 | That invariant holds after any run that starts from a state satisfying it |
| `Sessions.AcceptedSubmitThenListClears` | src/main/java/webnotes/controller/NoteController.java:70-99 | An accepted submission leaves the draft as it was, and the list view its redirect leads to empties it |
| `Sessions.CreateDraftShowsOnEditForm` | src/main/java/webnotes/controller/NoteController.java:52-101 | After a rejected create, the edit form for any id shows the create draft, because the slot belongs to the session, not to a form |
| `Sessions.RejectedCreateIsRecovered` | src/main/java/webnotes/controller/NoteController.java:81-104 | A rejected create followed by the create form yields the error view with the create back-link and the messages. The form then shows the rejected note with `isEmpty` false, and the store is unchanged |

## Left out

- Spring machinery is not modelled: annotations, request binding, `ModelAndView`, view resolution and templates. A view is its name plus a map of model entries, and `"redirect:/note/list"` is `Redirect("/note/list")`.
- `HttpSession` and `Principal` are reduced. The session is the single draft field, and the principal is its user name. Authentication and a missing principal are not modelled.
- Collaborator internals are not modelled: `NoteService`, `NoteValidator`, `NoteContentFormatService` and `UserService`. They are arbitrary functions. `add` is an abstract store update, so no id assignment is modelled.
- The `Note` entity is not part of this model. Notes are modelled with an id, title, content and access string. A null access level is not modelled. A submitted note with no id is not modelled either, so the call `isNoteExist(null)` on an edit submission has no counterpart.
- Collaborators are assumed to return normally and not to mutate their arguments. In the source, anything thrown by `deleteById`, `update`, `add`, `getIdByUsername`, `isNoteExist` or the formatters propagates out of the route. Every promised answer, such as the plain redirect after delete or the share page leaving state unchanged, holds only when the collaborators return.
- The formatter's output type is not part of this model, so formatted notes are modelled as notes.
- Concurrent requests, and races on the session slot between two requests of one session, are not modelled. Runs are sequential.
- `AsciiCase.EqualsIgnoreCase` folds only the ASCII letters `A`-`Z`. Java's `equalsIgnoreCase` also folds other Unicode letters. For the constant `"public"` this differs only for non-ASCII characters that Java folds to ASCII letters.
- Ownership is not checked on delete and edit: the source has no such check, and the model does not add one.
