/** The policies page: a list of title/content policies with create, edit and delete. */
module Policies {
  import opened Wrappers
  import opened Http
  import opened Responses
  import opened ListPages

  datatype Policy = Policy(id: string, title: string, content: string)

  /** The form; it is also the JSON body of the save request. */
  datatype Fields = Fields(title: string, content: string)

  datatype Page = Page(policies: seq<Policy>, error: string, editing: Option<Policy>, form: Fields)

  datatype Request = Request(endpoint: Endpoint, body: Fields)

  const Base: string := "/policies"
  const FetchError: string := "Failed to fetch policies"

  function EmptyFields(): Fields {
    Fields("", "")
  }

  function InitialPage(): (p: Page)
    ensures p.policies == [] && p.error == "" && p.editing.None? && p.form == EmptyFields()
  {
    Page([], "", None, EmptyFields())
  }

  function IdOf(p: Policy): string {
    p.id
  }

  /** A fetch replaces the list; a failed one keeps it and reports the error. */
  function Refresh(page: Page, r: Response<Policy>): (p: Page)
    ensures p.policies == ListFrom(page.policies, r)
    ensures p.error == if r.Failed? then FetchError else page.error
    ensures p.editing == page.editing && p.form == page.form
  {
    if r.Failed? then page.(error := FetchError)
    else page.(policies := ListFrom(page.policies, r))
  }

  /** Picking a policy to edit copies its title and content into the form. */
  function Edit(page: Page, policy: Policy): (p: Page)
    ensures p.editing == Some(policy) && p.form == Fields(policy.title, policy.content)
    ensures p.policies == page.policies && p.error == page.error
  {
    page.(editing := Some(policy), form := Fields(policy.title, policy.content))
  }

  /** Saving sends the form as JSON: `PUT` for the policy being edited, `POST` otherwise. */
  function SubmitRequest(page: Page): (r: Request)
    ensures r.endpoint.verb == Put <==> page.editing.Some?
    ensures page.editing.Some? ==> r.endpoint.path == Base + "/" + page.editing.value.id
    ensures page.editing.None? ==> r.endpoint.path == Base
    ensures r.body == page.form
  {
    var editingId := if page.editing.Some? then Some(page.editing.value.id) else None;
    Request(SaveEndpoint(Base, editingId), page.form)
  }

  /**
   * After the save request: on success the list is re-fetched, editing ends
   * (the create branch was only taken when nothing was being edited) and the
   * form is cleared; on failure nothing changes.
   */
  function AfterSubmit(page: Page, accepted: bool, refetched: Response<Policy>): (p: Page)
    ensures !accepted ==> p == page
    ensures accepted ==> p.editing.None? && p.form == EmptyFields()
    ensures accepted ==> p.policies == ListFrom(page.policies, refetched)
  {
    if !accepted then page
    else if page.editing.Some? then Refresh(page, refetched).(editing := None, form := EmptyFields())
    else Refresh(page, refetched).(form := EmptyFields())
  }

  /**
   * The Cancel button, shown while a policy is being edited: editing ends and
   * the form is emptied; the list and the error are untouched.
   */
  function Cancel(page: Page): (p: Page)
    ensures p.editing.None? && p.form == EmptyFields()
    ensures p.policies == page.policies && p.error == page.error
  {
    page.(editing := None, form := EmptyFields())
  }

  /** Deleting asks first; only a confirmed delete the server accepted changes the list. */
  function AfterDelete(page: Page, id: string, confirmed: bool, accepted: bool): (p: Page)
    ensures !(confirmed && accepted) ==> p == page
    ensures confirmed && accepted ==> p == page.(policies := WithoutId(page.policies, IdOf, id))
  {
    if confirmed && accepted then page.(policies := WithoutId(page.policies, IdOf, id)) else page
  }

  /** Editing a policy and saving it unchanged sends back its own title and content to its own id. */
  lemma EditThenSubmit(page: Page, policy: Policy)
    ensures SubmitRequest(Edit(page, policy)) ==
      Request(Endpoint(Put, "/policies/" + policy.id), Fields(policy.title, policy.content))
  {
  }

  /** After a successful save the next save creates a new policy. */
  lemma SaveReturnsToCreate(page: Page, refetched: Response<Policy>)
    ensures SubmitRequest(AfterSubmit(page, true, refetched)).endpoint == Endpoint(Post, "/policies")
  {
  }

  /** Cancelling an edit leaves no trace of it, and the next save creates a new policy from an empty form. */
  lemma EditThenCancel(page: Page, policy: Policy)
    ensures Cancel(Edit(page, policy)) == Cancel(page)
    ensures SubmitRequest(Cancel(Edit(page, policy))) == Request(Endpoint(Post, "/policies"), EmptyFields())
  {
  }
}
