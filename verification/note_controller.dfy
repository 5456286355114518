/**
 * The request handler of the note web application: one pure transition per
 * route, from a state and the route's parameters to a response and the next
 * state. Collaborators are passed in as `svc`.
 */
module NoteController {
  import opened Wrappers
  import opened AsciiCase
  import opened Notes
  import opened BackLink

  /** Where every redirect of the controller points. */
  const ListRoute: string := "/note/list"

  /** The share page's text for a note that is private or missing. */
  const PrivateMessage: string := "This Note is private or doesn't exist"

  /** The share page's model when nothing may be shown. */
  const PrivateShareModel: map<string, Attr> :=
    map["message" := Text(PrivateMessage), "isPublic" := Flag(false)]

  /**
   * The share test: the access level equals "public" ignoring (ASCII) case,
   * that is, its folded form reads "public".
   */
  function IsPublicAccess(access: string): (r: bool)
    ensures r <==> Lower(access) == "public"
  {
    assert Lower("public") == "public";
    EqualsIgnoreCase("public", access)
  }

  /** GET /note/list: empties the draft slot and lists the principal's notes, formatted. */
  function ListNotes(svc: Services, principal: string, st: State): (t: Transition)
    ensures t.state.draft == None
    ensures t.state.store == st.store
    ensures t.response.View? && t.response.name == "list"
    ensures t.response.model.Keys == {"notes"}
    ensures t.response.model["notes"]
            == NotesAttr(svc.formatList(svc.listAll(st.store, svc.idByUsername(principal))))
  {
    var notes := svc.listAll(st.store, svc.idByUsername(principal));
    Transition(View("list", map["notes" := NotesAttr(svc.formatList(notes))]), st.(draft := None))
  }

  /** GET /: always a redirect to the list, nothing changes. */
  function RootRedirect(st: State): (t: Transition)
    ensures t.response == Redirect(ListRoute)
    ensures t.state == st
  {
    Transition(Redirect(ListRoute), st)
  }

  /** POST /note/delete: hands the id to the store unchecked and redirects to the list. */
  function DeleteNote(svc: Services, id: string, st: State): (t: Transition)
    ensures t.response == Redirect(ListRoute)
    ensures t.state.draft == st.draft
    ensures t.state.store == svc.deleteById(st.store, id)
  {
    Transition(Redirect(ListRoute), st.(store := svc.deleteById(st.store, id)))
  }

  /**
   * GET /note/edit: a held draft wins over the requested id; otherwise the
   * stored note is shown, or the client is sent back to the list.
   */
  function ShowEditPage(svc: Services, id: string, st: State): (t: Transition)
    ensures t.state == st
    ensures st.draft.Some? ==> t.response == View("edit", map["note" := NoteAttr(st.draft.value)])
    ensures st.draft.None? && id in st.store ==>
              t.response == View("edit", map["note" := NoteAttr(st.store[id])])
    ensures t.response == Redirect(ListRoute) <==> st.draft.None? && id !in st.store
  {
    match st.draft
    case Some(draft) => Transition(View("edit", map["note" := NoteAttr(draft)]), st)
    case None =>
      if id in st.store then
        Transition(View("edit", map["note" := NoteAttr(st.store[id])]), st)
      else
        Transition(Redirect(ListRoute), st)
  }

  /**
   * POST /note/edit: an id the store does not hold is dropped before
   * validation; a valid note is written through the store; a rejected note
   * becomes the draft and the error view lists the validator's messages.
   */
  function EditNote(svc: Services, note: Note, st: State): (t: Transition)
    ensures note.id !in st.store ==> t == Transition(Redirect(ListRoute), st)
    ensures note.id in st.store && svc.validate(note) == [] ==>
              t.response == Redirect(ListRoute) && t.state == State(svc.update(st.store, note), st.draft)
    ensures note.id in st.store && svc.validate(note) != [] ==>
              t.response == ErrorView(EditLink(note.id), svc.validate(note))
              && t.state == State(st.store, Some(note))
  {
    if note.id !in st.store then
      Transition(Redirect(ListRoute), st)
    else
      var errors := svc.validate(note);
      if errors == [] then
        Transition(Redirect(ListRoute), st.(store := svc.update(st.store, note)))
      else
        Transition(ErrorView(EditLink(note.id), errors), st.(draft := Some(note)))
  }

  /** GET /note/create: an empty form, or the held draft with `isEmpty` false. */
  function ShowCreatePage(st: State): (t: Transition)
    ensures t.state == st
    ensures t.response.View? && t.response.name == "create"
    ensures "isEmpty" in t.response.model
    ensures t.response.model["isEmpty"] == Flag(true) <==> st.draft.None?
    ensures st.draft.None? ==> t.response.model.Keys == {"isEmpty"}
    ensures st.draft.Some? ==>
              t.response.model == map["note" := NoteAttr(st.draft.value), "isEmpty" := Flag(false)]
  {
    match st.draft
    case None => Transition(View("create", map["isEmpty" := Flag(true)]), st)
    case Some(draft) =>
      Transition(View("create", map["note" := NoteAttr(draft), "isEmpty" := Flag(false)]), st)
  }

  /**
   * POST /note/create: a valid note is added for the principal's user id; a
   * rejected note becomes the draft and the error view links back to the form.
   */
  function CreateNote(svc: Services, note: Note, principal: string, st: State): (t: Transition)
    ensures svc.validate(note) == [] ==>
              t.response == Redirect(ListRoute)
              && t.state == State(svc.add(st.store, note, svc.idByUsername(principal)), st.draft)
    ensures svc.validate(note) != [] ==>
              t.response == ErrorView(CreateLink, svc.validate(note))
              && t.state == State(st.store, Some(note))
  {
    var errors := svc.validate(note);
    if errors == [] then
      Transition(Redirect(ListRoute), st.(store := svc.add(st.store, note, svc.idByUsername(principal))))
    else
      Transition(ErrorView(CreateLink, errors), st.(draft := Some(note)))
  }

  /**
   * GET /note/share/{id}: the formatted note when it exists and is public,
   * one fixed answer otherwise.
   */
  function ShowSharePage(svc: Services, id: string, st: State): (t: Transition)
    ensures t.state == st
    ensures t.response.View? && t.response.name == "share"
    ensures "isPublic" in t.response.model
    ensures t.response.model["isPublic"] == Flag(true)
            <==> id in st.store && IsPublicAccess(st.store[id].access)
    ensures id in st.store && IsPublicAccess(st.store[id].access) ==>
              t.response.model == map["note" := NoteAttr(svc.formatOne(st.store[id])), "isPublic" := Flag(true)]
    ensures !(id in st.store && IsPublicAccess(st.store[id].access)) ==>
              t.response.model == PrivateShareModel
  {
    if id in st.store && IsPublicAccess(st.store[id].access) then
      Transition(View("share", map["note" := NoteAttr(svc.formatOne(st.store[id])), "isPublic" := Flag(true)]), st)
    else
      Transition(View("share", PrivateShareModel), st)
  }

  /**
   * Routes a request to its handler. Each page route renders its own
   * template, only submissions answer with the error view, and every
   * redirect points at the list.
   */
  function Handle(svc: Services, req: Request, st: State): (t: Transition)
    ensures t.response.View? ==>
              (req.List? && t.response.name == "list")
              || (req.ShowEdit? && t.response.name == "edit")
              || (req.ShowCreate? && t.response.name == "create")
              || (req.ShowShare? && t.response.name == "share")
    ensures t.response.ErrorView? ==> req.SubmitEdit? || req.SubmitCreate?
    ensures t.response.Redirect? ==> t.response.target == ListRoute
  {
    match req
    case List(principal) => ListNotes(svc, principal, st)
    case Root => RootRedirect(st)
    case Delete(id) => DeleteNote(svc, id, st)
    case ShowEdit(id) => ShowEditPage(svc, id, st)
    case SubmitEdit(note) => EditNote(svc, note, st)
    case ShowCreate => ShowCreatePage(st)
    case SubmitCreate(note, principal) => CreateNote(svc, note, principal, st)
    case ShowShare(id) => ShowSharePage(svc, id, st)
  }

  /** While a draft is held, the edit form shows it whatever id is asked for. */
  lemma ShowEditIgnoresIdWhileDrafting(svc: Services, id1: string, id2: string, st: State)
    requires st.draft.Some?
    ensures ShowEditPage(svc, id1, st) == ShowEditPage(svc, id2, st)
  {
  }

  /** The existence check comes first: for an unknown id the validator's verdict changes nothing. */
  lemma EditOfUnknownIdIgnoresValidator(svc: Services, validate': Note -> seq<string>, note: Note, st: State)
    requires note.id !in st.store
    ensures EditNote(svc, note, st) == EditNote(svc.(validate := validate'), note, st)
  {
  }

  /** A missing note and a private note produce the same share response. */
  lemma SharePrivateLooksMissing(svc: Services, id: string, missing: State, hidden: State)
    requires id !in missing.store
    requires id in hidden.store && !IsPublicAccess(hidden.store[id].access)
    ensures ShowSharePage(svc, id, missing).response == ShowSharePage(svc, id, hidden).response
  {
  }

  /** The share page never depends on the session: any draft gives the same answer. */
  lemma ShareIgnoresDraft(svc: Services, id: string, st: State, draft: Option<Note>)
    ensures ShowSharePage(svc, id, st).response == ShowSharePage(svc, id, st.(draft := draft)).response
  {
  }

  /**
   * Deleting an id the store does not hold still answers with the plain
   * redirect: a corollary of `DeleteNote`'s unconditional contract, stated
   * for the case where no existence check would have let the call through.
   */
  lemma DeleteOfUnknownIdRedirects(svc: Services, id: string, st: State)
    requires id !in st.store
    ensures DeleteNote(svc, id, st).response == Redirect(ListRoute)
  {
  }

  /** Only a submission that the validator rejects produces the error view, carrying exactly its messages. */
  lemma ErrorViewOnlyOnRejection(svc: Services, req: Request, st: State)
    ensures Handle(svc, req, st).response.ErrorView? <==>
              Submitted(req).Some?
              && svc.validate(Submitted(req).value) != []
              && (req.SubmitEdit? ==> req.note.id in st.store)
    ensures Handle(svc, req, st).response.ErrorView? ==>
              Handle(svc, req, st).response.errMes == svc.validate(Submitted(req).value)
              && |Handle(svc, req, st).response.errMes| > 0
  {
  }

  /**
   * How one request moves the draft slot: the list empties it, the error
   * view fills it with the submitted note, everything else leaves it alone.
   */
  lemma HandleDraft(svc: Services, req: Request, st: State)
    ensures Handle(svc, req, st).state.draft ==
              if req.List? then None
              else if Handle(svc, req, st).response.ErrorView? then Submitted(req)
              else st.draft
  {
  }

  /** Only delete and accepted submissions hand the store to a writing collaborator. */
  lemma ReadOnlyRoutes(svc: Services, req: Request, st: State)
    requires !req.Delete? && !req.SubmitEdit? && !req.SubmitCreate?
    ensures Handle(svc, req, st).state.store == st.store
  {
  }
}
