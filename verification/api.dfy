/**
 * The client's page API (client/src/API.js): what each call sends, and how it
 * reshapes what comes back.
 *
 * The block list travels as `{blocks: [...]}`: it is wrapped before it is sent
 * and unwrapped after a page is read. Dates reach the client as strings, with
 * `''` standing for "no publication date". The fetch itself is not modelled;
 * a response is the JSON value the server sent, and JSON encoding is lossless.
 */
module Api {
  import opened Wrappers
  import opened Strings
  import opened Blocks
  import opened PageDao
  import Server

  /** A page as `getPages` hands it to the layouts: no blocks, and a string date. */
  datatype PageSummary = PageSummary(
    id: int,
    title: string,
    author: string,
    creationDate: string,
    publicationDate: string)

  /** A page as `getPageById` hands it to the views, with its block list unwrapped. */
  datatype ClientPage = ClientPage(
    id: int,
    title: string,
    author: string,
    creationDate: string,
    publicationDate: string,
    blocks: seq<Block>)

  /** The publication date starts as `''` and is replaced only by a truthy value. */
  function NormalizeDate(d: Option<string>): (r: string)
    ensures r == "" <==> Server.IsFalsy(d)
    ensures !Server.IsFalsy(d) ==> r == d.value
    ensures d.Some? ==> r == d.value
  {
    if d.Some? && d.value != "" then d.value else ""
  }

  function Summarize(p: Page): PageSummary
  {
    PageSummary(p.id, p.title, p.author, p.creationDate, NormalizeDate(p.publicationDate))
  }

  /** `getPages`: one summary per page, in the order received, each keeping the listed fields only. */
  function GetPages(json: seq<Page>): (r: seq<PageSummary>)
    ensures |r| == |json|
    ensures forall i :: 0 <= i < |json| ==>
              && r[i].id == json[i].id && r[i].title == json[i].title && r[i].author == json[i].author
              && r[i].creationDate == json[i].creationDate
              && r[i].publicationDate == NormalizeDate(json[i].publicationDate)
  {
    seq(|json|, i requires 0 <= i < |json| => Summarize(json[i]))
  }

  /** `getPageById`: the page with its blocks unwrapped and its date normalised. */
  function GetPageById(p: Page): (c: ClientPage)
    ensures c.blocks == p.blocks.blocks
    ensures c.id == p.id && c.title == p.title && c.author == p.author && c.creationDate == p.creationDate
    ensures c.publicationDate == NormalizeDate(p.publicationDate)
  {
    ClientPage(p.id, p.title, p.author, p.creationDate, NormalizeDate(p.publicationDate), p.blocks.blocks)
  }

  /** What the page form passes to `createPage` and `updatePage`; only an edit carries an id. */
  datatype PageData = PageData(
    id: Option<int>,
    title: string,
    author: string,
    creationDate: string,
    publicationDate: string,
    blocks: seq<Block>)

  /** The JSON body sent for a save: the same fields, the block list wrapped. */
  datatype WireBody = WireBody(
    id: Option<int>,
    title: string,
    author: string,
    creationDate: string,
    publicationDate: string,
    blocks: BlocksDoc)

  datatype Request = Request(verb: string, path: string, body: WireBody)

  /** `pageData.blocks = { blocks: pageData.blocks }`: only the block field changes. */
  function WrapBlocks(d: PageData): (w: WireBody)
    ensures w.blocks.blocks == d.blocks
    ensures w.id == d.id && w.title == d.title && w.author == d.author
    ensures w.creationDate == d.creationDate && w.publicationDate == d.publicationDate
  {
    WireBody(d.id, d.title, d.author, d.creationDate, d.publicationDate, BlocksDoc(d.blocks))
  }

  /** `createPage`: POST to `pages`. */
  function CreatePage(d: PageData): (req: Request)
    ensures req.verb == "POST" && req.path == "pages"
    ensures req.body.blocks.blocks == d.blocks
  {
    Request("POST", "pages", WrapBlocks(d))
  }

  /** The id as a template literal prints it; an object without an id prints `undefined`. */
  function IdSegment(id: Option<int>): (s: string)
    ensures id.None? ==> s == "undefined"
    ensures id.Some? ==> s == IntToString(id.value)
  {
    if id.Some? then IntToString(id.value) else "undefined"
  }

  /** `updatePage`: PUT to `pages/{id}`, the id taken from the object passed. */
  function UpdatePage(d: PageData): (req: Request)
    ensures req.verb == "PUT"
    ensures |req.path| > |"pages/"| && req.path[..6] == "pages/"
    ensures req.path[6..] == IdSegment(d.id)
    ensures req.body.blocks.blocks == d.blocks
  {
    Request("PUT", "pages/" + IdSegment(d.id), WrapBlocks(d))
  }

  /** Two updates go to the same URL only when they carry the same id. */
  lemma UpdateTargetsItsOwnId(d1: PageData, d2: PageData)
    requires UpdatePage(d1).path == UpdatePage(d2).path
    ensures d1.id == d2.id
  {
    var s1, s2 := IdSegment(d1.id), IdSegment(d2.id);
    assert UpdatePage(d1).path[6..] == s1 && UpdatePage(d2).path[6..] == s2;
    if d1.id.Some? && d2.id.Some? {
      IntToStringInjective(d1.id.value, d2.id.value);
    }
  }

  /** The body the server's JSON parser hands the handler: the client always sends the date as a string. */
  function Received(w: WireBody): (b: Server.PageBody)
    ensures b.publicationDate == Some(w.publicationDate)
    ensures b.blocks == w.blocks && b.title == w.title && b.author == w.author && b.creationDate == w.creationDate
  {
    Server.PageBody(w.title, w.author, w.creationDate, Some(w.publicationDate), w.blocks)
  }

  /**
   * Saving a page and reading it back gives the client the blocks in the same
   * order and the same fields, the `''` of a draft included.
   */
  lemma SaveThenReadRoundTrip(d: PageData, id: int)
    ensures var c := GetPageById(ToPage(id, Server.StoredRow(Received(WrapBlocks(d)))));
            && c.blocks == d.blocks && c.id == id
            && c.title == d.title && c.author == d.author
            && c.creationDate == d.creationDate && c.publicationDate == d.publicationDate
  {
  }

  /**
   * A draft leaves the client with the empty string as its date and is stored
   * as such: a text value the anonymous query as written lets through.
   */
  lemma ClientDraftIsStoredAsEmptyText(d: PageData, today: string)
    requires d.publicationDate == ""
    ensures Server.StoredRow(Received(WrapBlocks(d))).publication_date == Some("")
    ensures SqlDateFilter(Some(""), today) && !Published(Some(""), today)
  {
    EmptyDraftPassesAnonymousFilter(today);
  }
}
