/**
 * Sequences of requests within one session, and the lifecycle of the draft
 * slot across them: it is emptied by the list view, filled by a rejected
 * submission, and otherwise carried along unchanged.
 */
module Sessions {
  import opened Wrappers
  import opened Notes
  import opened NoteController
  import BackLink

  /** The transitions of handling `reqs` one after another from `st`. */
  function Run(svc: Services, st: State, reqs: seq<Request>): (ts: seq<Transition>)
    ensures |ts| == |reqs|
    decreases |reqs|
  {
    if |reqs| == 0 then
      []
    else
      var prev := Run(svc, st, reqs[..|reqs| - 1]);
      prev + [Handle(svc, reqs[|reqs| - 1], Last(st, prev))]
  }

  /** The state after a list of transitions, or `st` when there are none. */
  function Last(st: State, ts: seq<Transition>): (last: State) {
    if |ts| == 0 then st else ts[|ts| - 1].state
  }

  /** The state a session is in after `reqs`. */
  function Final(svc: Services, st: State, reqs: seq<Request>): (final: State) {
    Last(st, Run(svc, st, reqs))
  }

  /** The responses of a run, in request order. */
  function Responses(ts: seq<Transition>): (rs: seq<Response>)
    ensures |rs| == |ts|
    ensures forall i :: 0 <= i < |ts| ==> rs[i] == ts[i].response
  {
    seq(|ts|, i requires 0 <= i < |ts| => ts[i].response)
  }

  /** Extending a run by one request extends its transitions by that request's transition. */
  lemma RunSnoc(svc: Services, st: State, reqs: seq<Request>, req: Request)
    ensures Run(svc, st, reqs + [req])
            == Run(svc, st, reqs) + [Handle(svc, req, Final(svc, st, reqs))]
  {
  }

  /**
   * The draft slot as the client could reconstruct it from what it sent and
   * saw: the note of the last submission answered with the error view, unless
   * a list request came after it; the initial draft if neither happened.
   */
  function ExpectedDraft(init: Option<Note>, reqs: seq<Request>, rs: seq<Response>): (draft: Option<Note>)
    requires |reqs| == |rs|
    decreases |reqs|
  {
    if |reqs| == 0 then
      init
    else if reqs[|reqs| - 1].List? then
      None
    else if rs[|rs| - 1].ErrorView? then
      Submitted(reqs[|reqs| - 1])
    else
      ExpectedDraft(init, reqs[..|reqs| - 1], rs[..|rs| - 1])
  }

  /** The draft slot after any run is exactly the one the request/response history predicts. */
  lemma {:induction false} RunDraft(svc: Services, st: State, reqs: seq<Request>)
    ensures Final(svc, st, reqs).draft == ExpectedDraft(st.draft, reqs, Responses(Run(svc, st, reqs)))
    decreases |reqs|
  {
    if |reqs| > 0 {
      var prefix := reqs[..|reqs| - 1];
      var req := reqs[|reqs| - 1];
      RunDraft(svc, st, prefix);
      assert prefix + [req] == reqs;
      RunSnoc(svc, st, prefix, req);
      var rs := Responses(Run(svc, st, reqs));
      assert rs[..|rs| - 1] == Responses(Run(svc, st, prefix));
      HandleDraft(svc, req, Final(svc, st, prefix));
    }
  }

  /** A run that ends on the list view ends with an empty draft slot, whatever came before. */
  lemma ListLeavesNoDraft(svc: Services, st: State, reqs: seq<Request>, principal: string)
    ensures Final(svc, st, reqs + [List(principal)]).draft == None
  {
  }

  /** The draft slot only ever holds a note the validator rejects. */
  ghost predicate DraftRejected(svc: Services, st: State) {
    st.draft.Some? ==> svc.validate(st.draft.value) != []
  }

  /** Every route keeps the draft slot free of notes the validator accepts. */
  lemma HandleKeepsDraftRejected(svc: Services, req: Request, st: State)
    requires DraftRejected(svc, st)
    ensures DraftRejected(svc, Handle(svc, req, st).state)
  {
  }

  /** So does every run that starts from a rejected or empty draft. */
  lemma {:induction false} RunKeepsDraftRejected(svc: Services, st: State, reqs: seq<Request>)
    requires DraftRejected(svc, st)
    ensures DraftRejected(svc, Final(svc, st, reqs))
    decreases |reqs|
  {
    if |reqs| > 0 {
      var prefix := reqs[..|reqs| - 1];
      RunKeepsDraftRejected(svc, st, prefix);
      assert prefix + [reqs[|reqs| - 1]] == reqs;
      RunSnoc(svc, st, prefix, reqs[|reqs| - 1]);
      HandleKeepsDraftRejected(svc, reqs[|reqs| - 1], Final(svc, st, prefix));
    }
  }

  /**
   * A successful submission does not touch the draft slot; the redirect it
   * answers with leads to the list view, which is what empties it.
   */
  lemma AcceptedSubmitThenListClears(svc: Services, st: State, req: Request, principal: string)
    requires req.SubmitEdit? || req.SubmitCreate?
    requires Handle(svc, req, st).response.Redirect?
    ensures Handle(svc, req, st).state.draft == st.draft
    ensures Final(svc, st, [req, List(principal)]).draft == None
  {
  }

  /**
   * The slot is per session, not per form: after a rejected create, the edit
   * form shows the create draft for any id asked for.
   */
  lemma CreateDraftShowsOnEditForm(svc: Services, st: State, note: Note, principal: string, id: string)
    requires svc.validate(note) != []
    ensures Handle(svc, ShowEdit(id), Handle(svc, SubmitCreate(note, principal), st).state).response
            == View("edit", map["note" := NoteAttr(note)])
  {
  }

  /**
   * A rejected create is recovered on the next visit to the create form:
   * the error view links back to the form, which shows the rejected note.
   */
  lemma RejectedCreateIsRecovered(svc: Services, st: State, note: Note, principal: string)
    requires svc.validate(note) != []
    ensures Final(svc, st, [SubmitCreate(note, principal), ShowCreate])
            == State(st.store, Some(note))
    ensures Responses(Run(svc, st, [SubmitCreate(note, principal), ShowCreate]))
            == [ ErrorView(BackLink.CreateLink, svc.validate(note)),
                 View("create", map["note" := NoteAttr(note), "isEmpty" := Flag(false)]) ]
  {
  }
}
