/**
 * The page and website endpoints of the REST server (server/index.js).
 *
 * Each handler is a pure verdict, followed by the page-store call when the
 * verdict lets the request through. The verdict encodes the order the source
 * checks things in: not logged in (401), then the collected validation errors
 * (422), then authorship (401/400), then, on update, the creation date (400).
 */
module Server {
  import opened Wrappers
  import opened Strings
  import opened Dates
  import opened Blocks
  import opened PageDao

  /** The session user behind a request, if any. `isAdmin` is the truth value of the `is_admin` column. */
  datatype Caller = Anonymous | User(name: string, isAdmin: bool)

  /** The JSON body of POST and PUT `/api/pages`. An absent or null publication date is `None`. */
  datatype PageBody = PageBody(
    title: string,
    author: string,
    creationDate: string,
    publicationDate: Option<string>,
    blocks: BlocksDoc)

  // ---------------------------------------------------------------------------
  // Validation

  /** One failed check, as the validation library reports it. */
  datatype ValidationError = ValidationError(location: string, param: string, msg: string)

  const InvalidValue: string := "Invalid value"
  const InvalidPublicationDate: string := "Invalid publication date"
  const TooFewBlocks: string := "Blocks must be an array and should contain at least two blocks."
  const UnknownBlockKind: string := "Block type must be either \"header\", \"paragraph\", or \"image\""
  const HeaderRequired: string := "At least one header block is required"
  const OtherRequired: string := "At least one of the other blocks (paragraph or image) is required"

  const TitleError: ValidationError := ValidationError("body", "title", InvalidValue)
  const AuthorError: ValidationError := ValidationError("body", "author", InvalidValue)
  const CreationDateError: ValidationError := ValidationError("body", "creationDate", InvalidValue)
  const PublicationDateError: ValidationError := ValidationError("body", "publicationDate", InvalidPublicationDate)
  const BlockCountError: ValidationError := ValidationError("body", "blocks.blocks", TooFewBlocks)
  const HeaderError: ValidationError := ValidationError("body", "blocks", HeaderRequired)
  const OtherError: ValidationError := ValidationError("body", "blocks", OtherRequired)

  /** Whether a character is one of the variation selectors U+FE0E and U+FE0F. */
  predicate IsPresentationSelector(c: char)
  {
    c == '\U{FE0E}' || c == '\U{FE0F}'
  }

  /** How many variation selectors a string holds. */
  function SelectorCount(s: string): (n: nat)
    ensures n <= |s|
  {
    if s == [] then 0 else (if IsPresentationSelector(s[0]) then 1 else 0) + SelectorCount(s[1..])
  }

  /**
   * The length `isLength` measures: code points, not counting the variation
   * selectors. (A string here is a sequence of code points, so the surrogate
   * pairs the library also subtracts are already counted once.)
   */
  function CountedLength(s: string): (n: nat)
    ensures n <= |s|
    ensures SelectorCount(s) == 0 ==> n == |s|
  {
    |s| - SelectorCount(s)
  }

  /**
   * A selector added to a string does not lengthen it: a 160-character title
   * followed by U+FE0F still passes the length check.
   */
  lemma {:induction false} SelectorAddsNoLength(s: string, c: char)
    requires IsPresentationSelector(c)
    ensures CountedLength(s + [c]) == CountedLength(s)
    ensures LengthOk(s + [c]) <==> LengthOk(s)
  {
    if s == [] {
      assert [c][1..] == [];
    } else {
      assert (s + [c])[1..] == s[1..] + [c];
      SelectorAddsNoLength(s[1..], c);
    }
  }

  /** `isLength({min: 1, max: 160})` */
  predicate LengthOk(s: string)
  {
    1 <= CountedLength(s) <= 160
  }

  /** `!value` for an optional string: absent, null or the empty string. */
  predicate IsFalsy(d: Option<string>)
  {
    d.None? || d.value == ""
  }

  /**
   * The custom publication-date validator: a falsy date passes; otherwise it
   * fails only when both strings parse and the publication day is before the
   * creation day (a comparison with an invalid `Date` is false).
   */
  predicate PublicationDateOk(publicationDate: Option<string>, creationDate: string)
  {
    IsFalsy(publicationDate)
    || !(IsDate(publicationDate.value) && IsDate(creationDate) && ChronoLess(publicationDate.value, creationDate))
  }

  /** Equal dates pass; a well-formed date fails exactly when it sorts before the creation date. */
  lemma PublicationDateRule(publicationDate: string, creationDate: string)
    requires IsDate(publicationDate) && IsDate(creationDate)
    ensures PublicationDateOk(Some(publicationDate), creationDate) <==> !Less(publicationDate, creationDate)
    ensures PublicationDateOk(Some(publicationDate), publicationDate)
  {
    StringOrderIsChronological(publicationDate, creationDate);
    StringOrderIsChronological(publicationDate, publicationDate);
    LessIrreflexive(publicationDate);
  }

  /** All kinds in the closed set. */
  predicate AllKindsKnown(blocks: seq<Block>)
  {
    forall i :: 0 <= i < |blocks| ==> IsKnownKind(blocks[i].kind)
  }

  /** A body that every check of the POST and PUT chains accepts. */
  predicate PageBodyValid(b: PageBody)
  {
    && LengthOk(b.title)
    && LengthOk(b.author)
    && IsDate(b.creationDate)
    && PublicationDateOk(b.publicationDate, b.creationDate)
    && |b.blocks.blocks| >= 2
    && AllKindsKnown(b.blocks.blocks)
    && HasHeader(b.blocks.blocks)
    && HasOther(b.blocks.blocks)
  }

  /** The error the wildcard `blocks.blocks.*.type` validator reports for block `i`. */
  function KindError(i: nat): ValidationError
  {
    ValidationError("body", "blocks.blocks[" + NatToString(i) + "].type", UnknownBlockKind)
  }

  /** How many blocks from index `from` on have a type outside the closed set. */
  function CountUnknown(blocks: seq<Block>, from: nat): nat
    requires from <= |blocks|
    decreases |blocks| - from
  {
    if from == |blocks| then 0
    else (if IsKnownKind(blocks[from].kind) then 0 else 1) + CountUnknown(blocks, from + 1)
  }

  /**
   * `check('blocks.blocks.*.type').isIn([...])`: one error per block of unknown
   * kind, naming that block's index, in block order.
   */
  function KindErrors(blocks: seq<Block>, from: nat): (errs: seq<ValidationError>)
    requires from <= |blocks|
    ensures forall e :: e in errs ==> e.msg == UnknownBlockKind && e.location == "body"
    ensures forall e :: e in errs ==> exists i :: from <= i < |blocks| && !IsKnownKind(blocks[i].kind) && e == KindError(i)
    ensures forall i :: from <= i < |blocks| && !IsKnownKind(blocks[i].kind) ==> KindError(i) in errs
    ensures |errs| == CountUnknown(blocks, from)
    ensures errs == [] <==> forall i :: from <= i < |blocks| ==> IsKnownKind(blocks[i].kind)
    decreases |blocks| - from
  {
    if from == |blocks| then []
    else
      (if IsKnownKind(blocks[from].kind) then [] else [KindError(from)])
      + KindErrors(blocks, from + 1)
  }

  /** The custom `blocks` validator: a missing header is reported in preference to a missing other block. */
  function MixErrors(blocks: seq<Block>): seq<ValidationError>
  {
    if !HasHeader(blocks) then [HeaderError]
    else if !HasOther(blocks) then [OtherError]
    else []
  }

  /** The checks on the scalar fields, in chain order. */
  function FieldErrors(b: PageBody): (errs: seq<ValidationError>)
    ensures errs == [] <==>
              LengthOk(b.title) && LengthOk(b.author) && IsDate(b.creationDate)
              && PublicationDateOk(b.publicationDate, b.creationDate)
    ensures TitleError in errs <==> !LengthOk(b.title)
    ensures AuthorError in errs <==> !LengthOk(b.author)
    ensures CreationDateError in errs <==> !IsDate(b.creationDate)
    ensures PublicationDateError in errs <==> !PublicationDateOk(b.publicationDate, b.creationDate)
    ensures forall e :: e in errs ==> e.param != "blocks" && e.msg != UnknownBlockKind && e.msg != TooFewBlocks
  {
    (if LengthOk(b.title) then [] else [TitleError])
    + (if LengthOk(b.author) then [] else [AuthorError])
    + (if IsDate(b.creationDate) then [] else [CreationDateError])
    + (if PublicationDateOk(b.publicationDate, b.creationDate) then [] else [PublicationDateError])
  }

  /** The checks on the block document, in chain order. */
  function BlockErrors(bs: seq<Block>): (errs: seq<ValidationError>)
    ensures errs == [] <==> |bs| >= 2 && AllKindsKnown(bs) && HasHeader(bs) && HasOther(bs)
    ensures BlockCountError in errs <==> |bs| < 2
    ensures HeaderError in errs <==> !HasHeader(bs)
    ensures OtherError in errs <==> HasHeader(bs) && !HasOther(bs)
    ensures (exists e :: e in errs && e.msg == UnknownBlockKind) <==> !AllKindsKnown(bs)
    ensures forall e :: e in errs ==> e.msg == TooFewBlocks || e.msg == UnknownBlockKind || e.msg == HeaderRequired || e.msg == OtherRequired
  {
    var kinds := KindErrors(bs, 0);
    assert !AllKindsKnown(bs) ==> kinds != [] && kinds[0].msg == UnknownBlockKind;
    (if |bs| >= 2 then [] else [BlockCountError]) + kinds + MixErrors(bs)
  }

  /** Every validator of the chain runs; the failures are collected in chain order. */
  function ValidatePage(b: PageBody): (errs: seq<ValidationError>)
    ensures errs == [] <==> PageBodyValid(b)
  {
    FieldErrors(b) + BlockErrors(b.blocks.blocks)
  }

  /** Each failed rule contributes its own error, and a rule that holds contributes none. */
  lemma ValidationReportsEachRule(b: PageBody)
    ensures var errs := ValidatePage(b);
            && (TitleError in errs <==> !LengthOk(b.title))
            && (AuthorError in errs <==> !LengthOk(b.author))
            && (CreationDateError in errs <==> !IsDate(b.creationDate))
            && (PublicationDateError in errs <==> !PublicationDateOk(b.publicationDate, b.creationDate))
  {
    var f, k := FieldErrors(b), BlockErrors(b.blocks.blocks);
    assert ValidatePage(b) == f + k;
    assert forall e :: e in k ==> e.msg != InvalidValue && e.msg != InvalidPublicationDate;
  }

  /** The block rules are reported the same way; a missing header hides a missing other block. */
  lemma ValidationReportsEachBlockRule(b: PageBody)
    ensures var errs, bs := ValidatePage(b), b.blocks.blocks;
            && (BlockCountError in errs <==> |bs| < 2)
            && (HeaderError in errs <==> !HasHeader(bs))
            && (OtherError in errs <==> HasHeader(bs) && !HasOther(bs))
            && ((exists e :: e in errs && e.msg == UnknownBlockKind) <==> !AllKindsKnown(bs))
  {
    var f, k := FieldErrors(b), BlockErrors(b.blocks.blocks);
    assert ValidatePage(b) == f + k;
    assert BlockCountError !in f && HeaderError !in f && OtherError !in f;
    assert forall e: ValidationError :: e in f + k && e.msg == UnknownBlockKind ==> e in k;
  }

  /** `errorFormatter`: `location[param]: msg`. */
  function ErrorFormatter(e: ValidationError): (s: string)
    ensures |s| == |e.location| + |e.param| + |e.msg| + 4
    ensures s[..|e.location|] == e.location
    ensures s[|e.location|] == '['
    ensures s[|e.location| + 1..|e.location| + 1 + |e.param|] == e.param
    ensures s[|e.location| + 1 + |e.param|..|s| - |e.msg|] == "]: "
    ensures s[|s| - |e.msg|..] == e.msg
  {
    e.location + "[" + e.param + "]: " + e.msg
  }

  function FormatAll(errs: seq<ValidationError>): (r: seq<string>)
    ensures |r| == |errs| && forall i :: 0 <= i < |errs| ==> r[i] == ErrorFormatter(errs[i])
  {
    seq(|errs|, i requires 0 <= i < |errs| => ErrorFormatter(errs[i]))
  }

  /** The 422 message: every formatted error, joined with ", ". */
  function ErrorText(errs: seq<ValidationError>): string
  {
    Join(FormatAll(errs), ", ")
  }

  /** The 422 message is never empty and names every failed check. */
  lemma ErrorTextReportsEveryFailure(errs: seq<ValidationError>, e: ValidationError)
    requires e in errs
    ensures ErrorText(errs) != ""
    ensures Occurs(ErrorFormatter(e), ErrorText(errs))
  {
    var i :| 0 <= i < |errs| && errs[i] == e;
    JoinContainsEachPart(FormatAll(errs), ", ", i);
    JoinNonEmpty(FormatAll(errs), ", ");
  }

  // ---------------------------------------------------------------------------
  // Authorisation

  datatype Decision = Allow | Deny(status: int, error: string)

  const NotAuthorized: string := "Not authorized"
  const NotAdminNorAuthorUpdating: string := "Unauthorized for updating: not admin nor author."
  const AuthorDoesNotExist: string := "Author does not exist."
  const CreationDateChanged: string := "Creation date cannot be changed."
  const NotAdminNorAuthorDeleting: string := "Unauthorized for deletion: not admin nor author."
  const NotAdminUpdating: string := "Unauthorized for updating: not admin."
  const NotAdminUsers: string := "Unauthorized for retrieving users: not admin."

  /**
   * The author check shared by create and update: the owner passes; anyone
   * else must be an admin (401 otherwise) naming an existing author (400 otherwise).
   * Both endpoints send the same "for updating" message.
   */
  function OwnerOrAdmin(isOwner: bool, isAdmin: bool, authorExists: bool): (d: Decision)
    ensures d == Allow <==> isOwner || (isAdmin && authorExists)
    ensures d == Deny(401, NotAdminNorAuthorUpdating) <==> !isOwner && !isAdmin
    ensures d == Deny(400, AuthorDoesNotExist) <==> !isOwner && isAdmin && !authorExists
  {
    if isOwner then Allow
    else if !isAdmin then Deny(401, NotAdminNorAuthorUpdating)
    else if !authorExists then Deny(400, AuthorDoesNotExist)
    else Allow
  }

  /** Create: the caller owns a body whose author is the caller's own name. */
  function AuthorizeCreate(callerName: string, isAdmin: bool, bodyAuthor: string, userNames: seq<string>): (d: Decision)
    ensures d == Allow <==> callerName == bodyAuthor || (isAdmin && bodyAuthor in userNames)
    ensures d.Deny? && d.status == 401 <==> callerName != bodyAuthor && !isAdmin
    ensures d.Deny? && d.status == 400 <==> callerName != bodyAuthor && isAdmin && bodyAuthor !in userNames
  {
    OwnerOrAdmin(callerName == bodyAuthor, isAdmin, bodyAuthor in userNames)
  }

  /**
   * Update: ownership is judged against the stored page's author (absent when
   * the lookup failed), so the owner passes whatever author the body names.
   */
  function AuthorizeUpdate(callerName: string, isAdmin: bool, storedAuthor: Option<string>, bodyAuthor: string, userNames: seq<string>): (d: Decision)
    ensures d == Allow <==> storedAuthor == Some(callerName) || (isAdmin && bodyAuthor in userNames)
    ensures d.Deny? && d.status == 401 <==> storedAuthor != Some(callerName) && !isAdmin
    ensures d.Deny? && d.status == 400 <==> storedAuthor != Some(callerName) && isAdmin && bodyAuthor !in userNames
  {
    OwnerOrAdmin(storedAuthor == Some(callerName), isAdmin, bodyAuthor in userNames)
  }

  /** Delete: allowed to admins and to the stored page's author. */
  function AuthorizeDelete(callerName: string, isAdmin: bool, storedAuthor: Option<string>): (d: Decision)
    ensures d == Allow <==> isAdmin || storedAuthor == Some(callerName)
    ensures d.Deny? ==> d == Deny(401, NotAdminNorAuthorDeleting)
  {
    if !isAdmin && storedAuthor != Some(callerName) then Deny(401, NotAdminNorAuthorDeleting) else Allow
  }

  /** The author of a lookup result; a not-found object has none. */
  function AuthorOf(stored: PageOrError): (a: Option<string>)
    ensures a.Some? <==> stored.Found?
    ensures stored.Found? ==> a.value == stored.page.author
  {
    if stored.Found? then Some(stored.page.author) else None
  }

  // ---------------------------------------------------------------------------
  // Handler verdicts

  /** Whether a handler goes on to the page store, or the error response it returns instead. */
  datatype Verdict = Proceed | Reject(status: int, error: string)

  function FromDecision(d: Decision): (v: Verdict)
    ensures v.Proceed? <==> d.Allow?
    ensures d.Deny? ==> v == Reject(d.status, d.error)
  {
    if d.Allow? then Proceed else Reject(d.status, d.error)
  }

  /** POST `/api/pages` up to the insert. */
  function CreateVerdict(caller: Caller, body: PageBody, userNames: seq<string>): (v: Verdict)
    ensures v == Reject(401, NotAuthorized) <==> caller.Anonymous?
    ensures caller.User? && !PageBodyValid(body) ==> v == Reject(422, ErrorText(ValidatePage(body)))
    ensures v == Proceed <==>
              caller.User? && PageBodyValid(body)
              && (caller.name == body.author || (caller.isAdmin && body.author in userNames))
    ensures caller.User? && PageBodyValid(body) ==>
              v == FromDecision(AuthorizeCreate(caller.name, caller.isAdmin, body.author, userNames))
  {
    if caller.Anonymous? then Reject(401, NotAuthorized)
    else if ValidatePage(body) != [] then Reject(422, ErrorText(ValidatePage(body)))
    else FromDecision(AuthorizeCreate(caller.name, caller.isAdmin, body.author, userNames))
  }

  /** PUT `/api/pages/:id` up to the update, given what the authenticated lookup of the id returned. */
  function UpdateVerdict(caller: Caller, body: PageBody, stored: PageOrError, userNames: seq<string>): (v: Verdict)
    ensures v == Reject(401, NotAuthorized) <==> caller.Anonymous?
    ensures caller.User? && !PageBodyValid(body) ==> v == Reject(422, ErrorText(ValidatePage(body)))
    ensures v == Proceed <==>
              caller.User? && PageBodyValid(body) && stored.Found?
              && (stored.page.author == caller.name || (caller.isAdmin && body.author in userNames))
              && body.creationDate == stored.page.creationDate
    ensures stored.Missing? ==> v.Reject? && v.status != 404
    ensures caller.User? && PageBodyValid(body) ==>
              var d := AuthorizeUpdate(caller.name, caller.isAdmin, AuthorOf(stored), body.author, userNames);
              && (d.Deny? ==> v == FromDecision(d))
              && (d.Allow? && (stored.Missing? || body.creationDate != stored.page.creationDate)
                  ==> v == Reject(400, CreationDateChanged))
  {
    if caller.Anonymous? then Reject(401, NotAuthorized)
    else if ValidatePage(body) != [] then Reject(422, ErrorText(ValidatePage(body)))
    else
      var d := AuthorizeUpdate(caller.name, caller.isAdmin, AuthorOf(stored), body.author, userNames);
      if d.Deny? then FromDecision(d)
      else if stored.Missing? || body.creationDate != stored.page.creationDate then Reject(400, CreationDateChanged)
      else Proceed
  }

  /** DELETE `/api/pages/:id` up to the delete, given what the authenticated lookup of the id returned. */
  function DeleteVerdict(caller: Caller, stored: PageOrError): (v: Verdict)
    ensures v == Reject(401, NotAuthorized) <==> caller.Anonymous?
    ensures v == Proceed <==> caller.User? && (caller.isAdmin || AuthorOf(stored) == Some(caller.name))
    ensures caller.User? && !caller.isAdmin && AuthorOf(stored) != Some(caller.name) ==> v == Reject(401, NotAdminNorAuthorDeleting)
  {
    if caller.Anonymous? then Reject(401, NotAuthorized)
    else FromDecision(AuthorizeDelete(caller.name, caller.isAdmin, AuthorOf(stored)))
  }

  /** PUT `/api/website/name` up to the write. */
  function SiteNameVerdict(caller: Caller, name: string): (v: Verdict)
    ensures v == Proceed <==> caller.User? && caller.isAdmin && LengthOk(name)
    ensures caller.Anonymous? ==> v == Reject(401, NotAuthorized)
    ensures caller.User? && !LengthOk(name) ==> v == Reject(422, ErrorText([ValidationError("body", "name", InvalidValue)]))
    ensures caller.User? && LengthOk(name) && !caller.isAdmin ==> v == Reject(401, NotAdminUpdating)
  {
    if caller.Anonymous? then Reject(401, NotAuthorized)
    else if !LengthOk(name) then Reject(422, ErrorText([ValidationError("body", "name", InvalidValue)]))
    else if !caller.isAdmin then Reject(401, NotAdminUpdating)
    else Proceed
  }

  // ---------------------------------------------------------------------------
  // Properties of the verdicts

  /** An admin sending a name of at most 160 characters, not all selectors, is let through. */
  lemma AdminWithGoodNameProceeds(adminName: string, name: string)
    requires |name| <= 160 && SelectorCount(name) < |name|
    ensures SiteNameVerdict(User(adminName, true), name) == Proceed
  {
    assert LengthOk(name);
  }

  /** A body failing validation, sent by any logged-in caller, is answered with 422 before its authorship is looked at. */
  lemma ValidationPrecedesAuthorship(name: string, isAdmin: bool, body: PageBody, stored: PageOrError, userNames: seq<string>)
    requires !PageBodyValid(body)
    ensures CreateVerdict(User(name, isAdmin), body, userNames).status == 422
    ensures UpdateVerdict(User(name, isAdmin), body, stored, userNames).status == 422
  {
  }

  /** On update the owner may put any name in the author field, even one that is not a user. */
  lemma OwnerMayRenameAuthor(owner: string, body: PageBody, stored: PageOrError, userNames: seq<string>)
    requires stored.Found? && stored.page.author == owner
    requires PageBodyValid(body) && body.creationDate == stored.page.creationDate
    ensures UpdateVerdict(User(owner, false), body, stored, userNames) == Proceed
  {
  }

  /** Once authorship passes, an update that changes the creation date is refused with 400. */
  lemma CreationDateIsImmutable(caller: Caller, body: PageBody, stored: PageOrError, userNames: seq<string>)
    requires caller.User? && PageBodyValid(body) && stored.Found?
    requires stored.page.author == caller.name || (caller.isAdmin && body.author in userNames)
    requires body.creationDate != stored.page.creationDate
    ensures UpdateVerdict(caller, body, stored, userNames) == Reject(400, CreationDateChanged)
  {
  }

  /** The example page of a well-formed request: one header, one paragraph, both dates the same day. */
  lemma ExamplePageIsAccepted()
    ensures var body := PageBody("Hi", "alice", "2024-01-01", Some("2024-01-01"),
                                 BlocksDoc([Block("header", "Hi"), Block("paragraph", "body")]));
            PageBodyValid(body) && CreateVerdict(User("alice", false), body, []) == Proceed
  {
    var blocks := [Block("header", "Hi"), Block("paragraph", "body")];
    var body := PageBody("Hi", "alice", "2024-01-01", Some("2024-01-01"), BlocksDoc(blocks));
    assert HasHeader(blocks) && HasOther(blocks) by {
      assert blocks[0].kind == HeaderKind && blocks[1].kind != HeaderKind;
    }
    ExampleDateIsWellFormed();
    ExampleNamesHaveGoodLength();
    assert PageBodyValid(body);
  }

  lemma ExampleNamesHaveGoodLength()
    ensures LengthOk("Hi") && LengthOk("alice")
  {
    assert SelectorCount("i") == 0 by { assert "i"[1..] == []; }
    assert SelectorCount("e") == 0 by { assert "e"[1..] == []; }
    assert SelectorCount("ce") == 0 by { assert "ce"[1..] == "e"; }
    assert SelectorCount("ice") == 0 by { assert "ice"[1..] == "ce"; }
    assert SelectorCount("lice") == 0 by { assert "lice"[1..] == "ice"; }
    assert "Hi"[1..] == "i" && "alice"[1..] == "lice";
  }

  lemma ExampleDateIsWellFormed()
    ensures IsDate("2024-01-01")
  {
    var d := "2024-01-01";
    assert d[..4] == "2024" && d[5..7] == "01" && d[8..] == "01";
    assert DigitsValue("01") == 1 by {
      assert "01"[..1] == "0";
    }
  }

  // ---------------------------------------------------------------------------
  // Responses and the server's state

  datatype Json =
    | ErrorJson(error: string)
    | PageJson(page: Page)
    | PageListJson(pages: seq<Page>)
    | EmptyJson
    | NameJson(name: string)
    | NamesJson(names: seq<string>)

  datatype Response = Response(status: int, body: Json)

  /** A resolved DAO result sent as it is: a page, or the `{error}` object. */
  function ResultJson(r: PageOrError): (j: Json)
    ensures r.Found? ==> j == PageJson(r.page)
    ensures r.Missing? ==> j == ErrorJson(r.error)
  {
    match r
    case Found(p) => PageJson(p)
    case Missing(e) => ErrorJson(e)
  }

  /** The row a validated body is stored as; the block document goes in as its JSON text. */
  function StoredRow(body: PageBody): (row: Row)
    ensures ToPage(0, row).blocks == body.blocks && row.publication_date == body.publicationDate
    ensures row.title == body.title && row.author == body.author && row.creation_date == body.creationDate
  {
    Row(body.title, body.author, body.creationDate, body.publicationDate, body.blocks)
  }

  /** GET `/api/users`, for a logged-in caller. */
  function UsersResponse(isAdmin: bool, userNames: seq<string>): (resp: Response)
    ensures resp.status == 200 <==> isAdmin
    ensures isAdmin ==> resp.body == NamesJson(userNames)
    ensures !isAdmin ==> resp == Response(401, ErrorJson(NotAdminUsers))
  {
    if !isAdmin then Response(401, ErrorJson(NotAdminUsers)) else Response(200, NamesJson(userNames))
  }

  class Server {
    const pages: PageStore
    const userNames: seq<string>
    var siteName: string

    ghost predicate Valid()
      reads this, pages
    {
      pages.Valid()
    }

    constructor (pages: PageStore, userNames: seq<string>, siteName: string)
      requires pages.Valid()
      ensures Valid() && this.pages == pages && this.userNames == userNames && this.siteName == siteName
    {
      this.pages := pages;
      this.userNames := userNames;
      this.siteName := siteName;
    }

    /** GET `/api/pages`: every page for a logged-in caller, the anonymously visible ones otherwise. */
    function ListPages(caller: Caller, today: string): (resp: Response)
      reads this, pages
      requires Valid()
      ensures resp.status == 200 && resp.body.PageListJson?
      ensures forall p :: p in resp.body.pages <==>
                p.id in pages.rows && p == ToPage(p.id, pages.rows[p.id])
                && (caller.User? || SqlDateFilter(pages.rows[p.id].publication_date, today))
    {
      Response(200, PageListJson(pages.GetAllPages(caller.User?, today)))
    }

    /** GET `/api/pages/:id`: 200 with the page, or 404 with the not-found object. */
    function ShowPage(caller: Caller, id: int, today: string): (resp: Response)
      reads this, pages
      ensures resp.status == 200 <==> pages.Selected(id, caller.User?, today)
      ensures resp.status == 200 ==> resp.body == PageJson(ToPage(id, pages.rows[id]))
      ensures resp.status != 200 ==> resp == Response(404, ErrorJson(PageNotFound))
    {
      var page := pages.GetPageById(id, caller.User?, today);
      if page.Missing? then Response(404, ErrorJson(page.error)) else Response(200, PageJson(page.page))
    }

    /**
     * The anonymous filter as written lets a draft saved with the empty date
     * through: an anonymous GET of it answers 200 with the page.
     */
    lemma AnonymousCallerSeesEmptyDraft(id: int, today: string)
      requires id in pages.rows && pages.rows[id].publication_date == Some("")
      ensures ShowPage(Anonymous, id, today) == Response(200, PageJson(ToPage(id, pages.rows[id])))
    {
      pages.AnonymousLookupShowsEmptyDraft(id, today);
    }

    /** POST `/api/pages`. */
    method CreatePage(caller: Caller, body: PageBody, today: string) returns (resp: Response)
      requires Valid()
      modifies pages
      ensures Valid()
      ensures var v := CreateVerdict(caller, body, userNames);
              v.Reject? ==> resp == Response(v.status, ErrorJson(v.error))
                            && pages.rows == old(pages.rows) && pages.nextId == old(pages.nextId)
      ensures CreateVerdict(caller, body, userNames) == Proceed ==>
                && old(pages.nextId) !in old(pages.rows)
                && pages.rows == old(pages.rows)[old(pages.nextId) := StoredRow(body)]
                && pages.nextId == old(pages.nextId) + 1
                && resp.status == 201
                && (SqlDateFilter(body.publicationDate, today) <==> resp.body.PageJson?)
                && (resp.body.PageJson? ==> resp.body.page == ToPage(old(pages.nextId), StoredRow(body)))
                && (!resp.body.PageJson? ==> resp.body == ErrorJson(PageNotFound))
    {
      var v := CreateVerdict(caller, body, userNames);
      if v.Reject? {
        return Response(v.status, ErrorJson(v.error));
      }
      var page := pages.CreatePage(StoredRow(body), today);
      resp := Response(201, ResultJson(page));
    }

    /** PUT `/api/pages/:id`. */
    method UpdatePage(caller: Caller, id: int, body: PageBody, today: string) returns (resp: Response)
      requires Valid()
      modifies pages
      ensures Valid() && pages.nextId == old(pages.nextId)
      ensures var v := UpdateVerdict(caller, body, old(pages.GetPageById(id, true, today)), userNames);
              v.Reject? ==> resp == Response(v.status, ErrorJson(v.error)) && pages.rows == old(pages.rows)
      ensures UpdateVerdict(caller, body, old(pages.GetPageById(id, true, today)), userNames) == Proceed ==>
                && id in old(pages.rows)
                && pages.rows == old(pages.rows)[id := StoredRow(body)]
                && (resp.status == 200 <==> SqlDateFilter(body.publicationDate, today))
                && (resp.status == 200 ==> resp.body == PageJson(ToPage(id, StoredRow(body))))
                && (resp.status != 200 ==> resp == Response(404, ErrorJson(PageNotFound)))
    {
      var stored := pages.GetPageById(id, true, today);
      var v := UpdateVerdict(caller, body, stored, userNames);
      if v.Reject? {
        return Response(v.status, ErrorJson(v.error));
      }
      var updated := pages.UpdatePage(id, StoredRow(body), today);
      if updated.Missing? {
        resp := Response(404, ResultJson(updated));
      } else {
        resp := Response(200, ResultJson(updated));
      }
    }

    /** DELETE `/api/pages/:id`. */
    method DeletePage(caller: Caller, id: int, today: string) returns (resp: Response)
      requires Valid()
      modifies pages
      ensures Valid() && pages.nextId == old(pages.nextId)
      ensures var v := DeleteVerdict(caller, old(pages.GetPageById(id, true, today)));
              v.Reject? ==> resp == Response(v.status, ErrorJson(v.error)) && pages.rows == old(pages.rows)
      ensures DeleteVerdict(caller, old(pages.GetPageById(id, true, today))) == Proceed ==>
                && pages.rows == old(pages.rows) - {id}
                && (id in old(pages.rows) ==> resp == Response(200, EmptyJson))
                && (id !in old(pages.rows) ==> resp == Response(404, ErrorJson(NoPageDeleted)))
    {
      var stored := pages.GetPageById(id, true, today);
      var v := DeleteVerdict(caller, stored);
      if v.Reject? {
        return Response(v.status, ErrorJson(v.error));
      }
      var result := pages.DeletePage(id);
      if result.None? {
        resp := Response(200, EmptyJson);
      } else {
        resp := Response(404, ErrorJson(result.value));
      }
    }

    /** PUT `/api/website/name`. */
    method SetSiteName(caller: Caller, name: string) returns (resp: Response)
      requires Valid()
      modifies this
      ensures Valid()
      ensures var v := SiteNameVerdict(caller, name);
              v.Reject? ==> resp == Response(v.status, ErrorJson(v.error)) && siteName == old(siteName)
      ensures SiteNameVerdict(caller, name) == Proceed ==> siteName == name && resp == Response(200, NameJson(name))
    {
      var v := SiteNameVerdict(caller, name);
      if v.Reject? {
        return Response(v.status, ErrorJson(v.error));
      }
      siteName := name;
      resp := Response(200, NameJson(name));
    }
  }
}
