/**
 * The data the note controller works on: notes, the note store, the
 * per-session draft slot, the collaborators it delegates to, and the
 * requests and responses of its routes.
 */
module Notes {
  import opened Wrappers

  /** A note as the controller sees it: it reads `id` and `access`, and passes the rest through. */
  datatype Note = Note(id: string, title: string, content: string, access: string)

  /** The note store, keyed by note id. */
  type Store = map<string, Note>

  /**
   * Everything a request can observe or change: the shared note store and
   * the session's draft slot (the session attribute "note").
   */
  datatype State = State(store: Store, draft: Option<Note>)

  /**
   * The collaborators injected into the controller. Their code is not part
   * of this model, so each is an arbitrary function; every property proved
   * about the controller holds whatever they compute.
   */
  datatype Services = Services(
    idByUsername: string -> int,             // user service: principal name to user id
    listAll: (Store, int) -> seq<Note>,      // note service: the notes of one user
    add: (Store, Note, int) -> Store,        // note service: insert a note for a user
    update: (Store, Note) -> Store,          // note service: overwrite an existing note
    deleteById: (Store, string) -> Store,    // note service: remove a note by id
    validate: Note -> seq<string>,           // validator: error messages, empty when valid
    formatOne: Note -> Note,                 // formatter: one note for display
    formatList: seq<Note> -> seq<Note>)      // formatter: a list of notes for display

  /** A value placed in a view's model. */
  datatype Attr =
    | NoteAttr(note: Note)
    | NotesAttr(notes: seq<Note>)
    | Flag(flag: bool)
    | Text(text: string)

  /** What a route answers: a redirect, a named view with its model, or the error view. */
  datatype Response =
    | Redirect(target: string)
    | View(name: string, model: map<string, Attr>)
    | ErrorView(backLink: string, errMes: seq<string>)

  /** One request per route; the principal is the authenticated user name. */
  datatype Request =
    | List(principal: string)            // GET  /note/list
    | Root                               // GET  /
    | Delete(id: string)                 // POST /note/delete
    | ShowEdit(id: string)               // GET  /note/edit?id=
    | SubmitEdit(note: Note)             // POST /note/edit
    | ShowCreate                         // GET  /note/create
    | SubmitCreate(note: Note, principal: string)  // POST /note/create
    | ShowShare(id: string)              // GET  /note/share/{id}

  /** A route's answer together with the state it leaves behind. */
  datatype Transition = Transition(response: Response, state: State)

  /** The note a request submits, if it is a form submission. */
  function Submitted(req: Request): (n: Option<Note>)
    ensures n.Some? <==> req.SubmitEdit? || req.SubmitCreate?
  {
    match req
    case SubmitEdit(note) => Some(note)
    case SubmitCreate(note, _) => Some(note)
    case _ => None
  }
}
