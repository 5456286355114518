/**
 * The back-links carried by the error view: the edit form of the note that
 * failed validation, or the create form.
 */
module BackLink {
  import opened Wrappers

  const EditPrefix: string := "/note/edit?id="
  const CreateLink: string := "/note/create"

  /** The edit form's address for note `id`: the prefix followed by the id, unescaped. */
  function EditLink(id: string): (link: string)
    ensures |link| == |EditPrefix| + |id|
    ensures link[..|EditPrefix|] == EditPrefix
    ensures link[|EditPrefix|..] == id
  {
    EditPrefix + id
  }

  /**
   * Reads the note id back out of an edit-form address; None for any other
   * address. This is the exact inverse of `EditLink`, not query-string
   * decoding: an id holding '&', '#', '+' or '%' comes back as written here,
   * whereas the edit route's request parameter would be cut or decoded.
   */
  function EditLinkId(link: string): (r: Option<string>)
    ensures r.Some? <==> |EditPrefix| <= |link| && link[..|EditPrefix|] == EditPrefix
    ensures r.Some? ==> |r.value| == |link| - |EditPrefix|
  {
    if |EditPrefix| <= |link| && link[..|EditPrefix|] == EditPrefix then
      Some(link[|EditPrefix|..])
    else
      None
  }

  /** Parsing an edit link gives back the id it was built from. */
  lemma EditLinkRoundTrip(id: string)
    ensures EditLinkId(EditLink(id)) == Some(id)
  {
  }

  /** Every address the parser accepts is the edit link of the id it returns. */
  lemma EditLinkIdComplete(link: string)
    requires EditLinkId(link).Some?
    ensures EditLink(EditLinkId(link).value) == link
  {
  }

  /** Different notes get different back-links. */
  lemma EditLinkInjective(id1: string, id2: string)
    requires EditLink(id1) == EditLink(id2)
    ensures id1 == id2
  {
  }

  /** An edit back-link is never the create back-link, whatever the id. */
  lemma EditLinkIsNotCreateLink(id: string)
    ensures EditLink(id) != CreateLink
    ensures EditLinkId(CreateLink).None?
  {
  }
}
