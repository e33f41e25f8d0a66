/**
 * The page card status label and the page editor form (client/src/components/Page.jsx).
 *
 * The label and the submit rules are pure. The form's state is a record, and
 * submitting it builds the record that goes to `createPage` or `updatePage`.
 * The list of user names an admin's submit fetches is a parameter.
 */
module PageForm {
  import opened Wrappers
  import opened Strings
  import opened Dates
  import opened Blocks
  import opened Api

  datatype Status = Draft | Scheduled | Published

  /** The card label: `''` is a draft, a date after today is scheduled, anything else is published. */
  function StatusOf(publicationDate: string, today: string): (s: Status)
    ensures s == Draft <==> publicationDate == ""
    ensures s == Scheduled <==> publicationDate != "" && Less(today, publicationDate)
    ensures s == Published <==> publicationDate != "" && AtMost(publicationDate, today)
  {
    if publicationDate == "" then Draft
    else if Less(today, publicationDate) then Scheduled
    else Published
  }

  /** The text shown: the status word followed by the date, which is empty for a draft. */
  function StatusLabel(publicationDate: string, today: string): (text: string)
    ensures StatusOf(publicationDate, today) == Draft ==> text == "Draft"
    ensures StatusOf(publicationDate, today) != Draft ==> |text| > |publicationDate| && text[|text| - |publicationDate|..] == publicationDate
    ensures StatusOf(publicationDate, today) == Scheduled ==> |text| == 11 + |publicationDate| && text[..11] == "Scheduled: "
    ensures StatusOf(publicationDate, today) == Published ==> |text| == 11 + |publicationDate| && text[..11] == "Published: "
  {
    match StatusOf(publicationDate, today)
    case Draft => "Draft" + publicationDate
    case Scheduled => "Scheduled: " + publicationDate
    case Published => "Published: " + publicationDate
  }

  /** On calendar dates the string comparison is the calendar one: published means not after today. */
  lemma StatusFollowsCalendar(publicationDate: string, today: string)
    requires IsDate(publicationDate) && IsDate(today)
    ensures StatusOf(publicationDate, today) == Scheduled <==> ChronoLess(today, publicationDate)
    ensures StatusOf(publicationDate, today) == Published <==> !ChronoLess(today, publicationDate)
  {
    StringOrderIsChronological(today, publicationDate);
    AtMostIsLessOrEqual(publicationDate, today);
  }

  /** The logged-in user as the client holds it; `isAdmin` is the stored integer flag. */
  datatype ClientUser = ClientUser(name: string, isAdmin: int)

  /** The editor's state: one field per form control, plus the block list. */
  datatype FormState = FormState(
    title: string,
    author: string,
    creationDate: string,
    publicationDate: string,
    blocks: seq<Block>)

  const DefaultBlocks: seq<Block> := [Block(HeaderKind, "Mock header"), Block(ParagraphKind, "Mock paragraph")]

  /** The form's initial state: the page being edited, or the defaults for a new page. */
  function InitialForm(page: Option<ClientPage>, user: ClientUser, today: string): (f: FormState)
    ensures page.None? ==> f.title == "" && f.author == user.name && f.creationDate == today
                           && f.publicationDate == "" && f.blocks == DefaultBlocks
    ensures page.None? ==> HasHeader(f.blocks) && HasOther(f.blocks)
    ensures page.Some? ==> f.title == page.value.title && f.author == page.value.author
                           && f.creationDate == page.value.creationDate
                           && f.publicationDate == page.value.publicationDate && f.blocks == page.value.blocks
  {
    match page
    case Some(p) => FormState(p.title, p.author, p.creationDate, p.publicationDate, p.blocks)
    case None =>
      assert DefaultBlocks[0].kind == HeaderKind && DefaultBlocks[1].kind != HeaderKind;
      FormState("", user.name, today, "", DefaultBlocks)
  }

  const MixRequired: string := "A page must contain at least one header and one other type of block"
  const UnknownAuthor: string := "The selected author does not exist"

  /**
   * `handleSubmit`: trims title and author, demands a header and another block,
   * and, for an admin, an author among the user names; an edit carries the page's id.
   */
  function HandleSubmit(form: FormState, user: ClientUser, page: Option<ClientPage>, userNames: seq<string>): (r: Result<PageData, string>)
    ensures r.Ok? <==> HasHeader(form.blocks) && HasOther(form.blocks) && (user.isAdmin == 1 ==> Trim(form.author) in userNames)
    ensures !(HasHeader(form.blocks) && HasOther(form.blocks)) ==> r == Err(MixRequired)
    ensures HasHeader(form.blocks) && HasOther(form.blocks) && !r.Ok? ==> r == Err(UnknownAuthor)
    ensures r.Ok? ==> && r.value.title == Trim(form.title) && r.value.author == Trim(form.author)
                      && r.value.creationDate == form.creationDate && r.value.publicationDate == form.publicationDate
                      && r.value.blocks == form.blocks
                      && (page.Some? ==> r.value.id == Some(page.value.id))
                      && (page.None? ==> r.value.id.None?)
  {
    var title, author := Trim(form.title), Trim(form.author);
    if !HasHeader(form.blocks) || !HasOther(form.blocks) then Err(MixRequired)
    else if user.isAdmin == 1 && author !in userNames then Err(UnknownAuthor)
    else
      var id := if page.Some? then Some(page.value.id) else None;
      Ok(PageData(id, title, author, form.creationDate, form.publicationDate, form.blocks))
  }

  /** An accepted submit holds at least two blocks, and the trimmed fields cannot be trimmed further. */
  lemma SubmittedPageIsWellShaped(form: FormState, user: ClientUser, page: Option<ClientPage>, userNames: seq<string>)
    requires HandleSubmit(form, user, page, userNames).Ok?
    ensures var d := HandleSubmit(form, user, page, userNames).value;
            |d.blocks| >= 2 && Trim(d.title) == d.title && Trim(d.author) == d.author
  {
    HeaderAndOtherNeedTwoBlocks(form.blocks);
    TrimIdempotent(form.title);
    TrimIdempotent(form.author);
  }

  /** Only an admin's submit consults the user names. */
  lemma NonAdminSkipsAuthorLookup(form: FormState, user: ClientUser, page: Option<ClientPage>, names1: seq<string>, names2: seq<string>)
    requires user.isAdmin != 1
    ensures HandleSubmit(form, user, page, names1) == HandleSubmit(form, user, page, names2)
  {
  }

  /** A new page left with its default blocks passes the block rule; a non-admin's submit then succeeds. */
  lemma DefaultsPassSubmit(user: ClientUser, today: string, title: string, userNames: seq<string>)
    requires user.isAdmin != 1
    ensures var f := InitialForm(None, user, today);
            HandleSubmit(f.(title := title), user, None, userNames).Ok?
  {
  }

  /** "Add new block": an empty header goes at the end and the earlier blocks stay as they were. */
  function AddBlock(blocks: seq<Block>): (r: seq<Block>)
    ensures |r| == |blocks| + 1 && r[..|blocks|] == blocks
    ensures r[|blocks|] == Block(HeaderKind, "")
    ensures HasHeader(r)
  {
    var added := blocks + [Block(HeaderKind, "")];
    assert added[|blocks|].kind == HeaderKind;
    added
  }

  /** Adding a block keeps a valid list valid, and deleting the added block gives the list back. */
  lemma AddThenDeleteRestores(blocks: seq<Block>)
    ensures Deleted(AddBlock(blocks), |blocks|) == blocks
    ensures HasOther(blocks) ==> HasOther(AddBlock(blocks))
  {
    var r := AddBlock(blocks);
    DeleteRemovesExactlyOne(r, |blocks|);
    if HasOther(blocks) {
      var i :| 0 <= i < |blocks| && blocks[i].kind != HeaderKind;
      assert r[i] == blocks[i];
    }
  }
}
