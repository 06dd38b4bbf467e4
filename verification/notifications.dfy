/**
 * The notifications page: a list fetched from the server, a form that either
 * creates a notification or edits the one picked from the list, optional
 * image upload, and delete.
 */
module Notifications {
  import opened Wrappers
  import opened Http
  import opened Text
  import opened Responses
  import opened ListPages

  datatype Notification = Notification(
    id: string, title: string, message: string, image: Option<string>,
    startDate: Option<string>, endDate: Option<string>)

  /** The form's text inputs; the dates are `datetime-local` values. */
  datatype Fields = Fields(title: string, message: string, startDate: string, endDate: string)

  datatype Page = Page(
    notifications: seq<Notification>, error: string,
    editing: Option<Notification>, form: Fields, imageFile: Option<LocalFile>)

  datatype Request = Request(endpoint: Endpoint, parts: seq<FormPart>)

  const Base: string := "/notifications"
  const FetchError: string := "Failed to fetch notifications"

  function EmptyFields(): Fields {
    Fields("", "", "", "")
  }

  function InitialPage(): (p: Page)
    ensures p.notifications == [] && p.error == ""
    ensures p.editing.None? && p.form == EmptyFields() && p.imageFile.None?
  {
    Page([], "", None, EmptyFields(), None)
  }

  function IdOf(n: Notification): string {
    n.id
  }

  /** A fetch replaces the list; a failed one keeps it and reports the error. */
  function Refresh(page: Page, r: Response<Notification>): (p: Page)
    ensures p.notifications == ListFrom(page.notifications, r)
    ensures p.error == if r.Failed? then FetchError else page.error
    ensures p.editing == page.editing && p.form == page.form && p.imageFile == page.imageFile
  {
    if r.Failed? then page.(error := FetchError)
    else page.(notifications := ListFrom(page.notifications, r))
  }

  /** `d?.slice(0, 16) || ""`: the leading `YYYY-MM-DDTHH:mm` of a stored date. */
  function DateInput(d: Option<string>): (s: string)
    ensures |s| <= 16
    ensures d.None? ==> s == ""
    ensures d.Some? ==> s <= d.value && (|d.value| >= 16 ==> |s| == 16)
    ensures d.Some? && |d.value| < 16 ==> s == d.value
  {
    match d
    case None => ""
    case Some(v) => Prefix(v, 16)
  }

  /** An ISO timestamp keeps its date, hour and minute. */
  lemma DateInputKeepsMinutes()
    ensures DateInput(Some("2024-05-01T10:30:00.000Z")) == "2024-05-01T10:30"
  {
  }

  /** Storing a truncated date and truncating it again changes nothing. */
  lemma DateInputIdempotent(d: Option<string>)
    ensures DateInput(Some(DateInput(d))) == DateInput(d)
  {
  }

  /** Picking a notification to edit fills the form from it and clears the picked file. */
  function Edit(page: Page, n: Notification): (p: Page)
    ensures p.editing == Some(n)
    ensures p.form == Fields(n.title, n.message, DateInput(n.startDate), DateInput(n.endDate))
    ensures p.imageFile.None?
    ensures p.notifications == page.notifications && p.error == page.error
  {
    page.(editing := Some(n),
          form := Fields(n.title, n.message, DateInput(n.startDate), DateInput(n.endDate)),
          imageFile := None)
  }

  /** The form body: the four text fields, then the image only when a file was picked. */
  function Body(form: Fields, file: Option<LocalFile>): (parts: seq<FormPart>)
    ensures |parts| == if file.Some? then 5 else 4
    ensures parts[..4] == [TextPart("title", form.title), TextPart("message", form.message),
                          TextPart("startDate", form.startDate), TextPart("endDate", form.endDate)]
    ensures (exists i :: 0 <= i < |parts| && parts[i].FilePart?) <==> file.Some?
    ensures file.Some? ==> parts[4] == FilePart("image", file.value)
  {
    var texts := [TextPart("title", form.title), TextPart("message", form.message),
                  TextPart("startDate", form.startDate), TextPart("endDate", form.endDate)];
    if file.Some? then
      var parts := texts + [FilePart("image", file.value)];
      assert parts[4].FilePart?;
      parts
    else texts
  }

  function EditingId(page: Page): Option<string> {
    if page.editing.Some? then Some(page.editing.value.id) else None
  }

  /** Saving sends one request: `PUT` for the notification being edited, `POST` otherwise. */
  function SubmitRequest(page: Page): (r: Request)
    ensures r.endpoint.verb == Put <==> page.editing.Some?
    ensures page.editing.Some? ==> r.endpoint.path == Base + "/" + page.editing.value.id
    ensures page.editing.None? ==> r.endpoint.path == Base
    ensures r.parts == Body(page.form, page.imageFile)
  {
    Request(SaveEndpoint(Base, EditingId(page)), Body(page.form, page.imageFile))
  }

  /**
   * After the save request: when the server accepted it the list is
   * re-fetched and the form returns to an empty create form; when it refused,
   * nothing changes.
   */
  function AfterSubmit(page: Page, accepted: bool, refetched: Response<Notification>): (p: Page)
    ensures !accepted ==> p == page
    ensures accepted ==> p.editing.None? && p.form == EmptyFields() && p.imageFile.None?
    ensures accepted ==> p.notifications == ListFrom(page.notifications, refetched)
  {
    if accepted then Refresh(page, refetched).(editing := None, form := EmptyFields(), imageFile := None)
    else page
  }

  /**
   * The Cancel button, shown while a notification is being edited: editing
   * ends, the form is emptied and any picked image is dropped; the list and
   * the error are untouched.
   */
  function Cancel(page: Page): (p: Page)
    ensures p.editing.None? && p.form == EmptyFields() && p.imageFile.None?
    ensures p.notifications == page.notifications && p.error == page.error
  {
    page.(editing := None, form := EmptyFields(), imageFile := None)
  }

  /** Deleting asks first; only a confirmed delete the server accepted changes the list. */
  function AfterDelete(page: Page, id: string, confirmed: bool, accepted: bool): (p: Page)
    ensures !(confirmed && accepted) ==> p == page
    ensures confirmed && accepted ==> p == page.(notifications := WithoutId(page.notifications, IdOf, id))
  {
    if confirmed && accepted then page.(notifications := WithoutId(page.notifications, IdOf, id)) else page
  }

  /** Editing a notification and saving targets that notification and sends no image unless one is picked. */
  lemma EditThenSubmit(page: Page, n: Notification)
    ensures var r := SubmitRequest(Edit(page, n));
      && r.endpoint == Endpoint(Put, "/notifications/" + n.id)
      && |r.parts| == 4
      && r.parts[0] == TextPart("title", n.title)
  {
  }

  /** After a successful save the next save creates a new notification. */
  lemma SaveReturnsToCreate(page: Page, refetched: Response<Notification>)
    ensures SubmitRequest(AfterSubmit(page, true, refetched)).endpoint == Endpoint(Post, "/notifications")
  {
  }

  /** Deleting the notification being edited leaves the form editing it, so a later save targets the deleted id. */
  lemma DeleteKeepsEditing(page: Page, n: Notification)
    ensures var p := AfterDelete(Edit(page, n), n.id, true, true);
      && (forall i :: 0 <= i < |p.notifications| ==> p.notifications[i].id != n.id)
      && SubmitRequest(p).endpoint == Endpoint(Put, "/notifications/" + n.id)
  {
  }

  /** Cancelling an edit leaves no trace of it, and the next save creates a new notification. */
  lemma EditThenCancel(page: Page, n: Notification)
    ensures Cancel(Edit(page, n)) == Cancel(page)
    ensures SubmitRequest(Cancel(Edit(page, n))) == Request(Endpoint(Post, "/notifications"), Body(EmptyFields(), None))
  {
  }
}
