/**
 * The pages table and its data-access functions (server/DAOs/dao-pages.js).
 *
 * The table is a map from row id to row plus the id the next insert receives.
 * Listings come out in ascending id order, the order in which SQLite scans a
 * rowid table when the query has no ORDER BY. "Today" is a parameter.
 */
module PageDao {
  import opened Wrappers
  import opened Strings
  import opened Blocks

  /** A row of the `pages` table, under its column names. A NULL date is `None`. */
  datatype Row = Row(
    title: string,
    author: string,
    creation_date: string,
    publication_date: Option<string>,
    blocks: BlocksDoc)

  /** A page object as the DAO resolves it, with camel-case date fields. */
  datatype Page = Page(
    id: int,
    title: string,
    author: string,
    creationDate: string,
    publicationDate: Option<string>,
    blocks: BlocksDoc)

  /** What `getPageById` and `updatePage` resolve to: a page, or an object holding only `error`. */
  datatype PageOrError = Found(page: Page) | Missing(error: string)

  const PageNotFound: string := "Page not found."
  const NoPageUpdated: string := "No page updated."
  const NoPageDeleted: string := "No page deleted."

  /** The row mapping: `creation_date`/`publication_date` become `creationDate`/`publicationDate`. */
  function ToPage(id: int, row: Row): Page
  {
    Page(id, row.title, row.author, row.creation_date, row.publication_date, row.blocks)
  }

  /** The columns a page object is stored under. */
  function ToRow(p: Page): Row
  {
    Row(p.title, p.author, p.creationDate, p.publicationDate, p.blocks)
  }

  /** The mapping renames and loses nothing: it is undone by storing the page back. */
  lemma RowMappingIsLossless(id: int, row: Row, p: Page)
    ensures var q := ToPage(id, row);
            q.id == id && q.creationDate == row.creation_date && q.publicationDate == row.publication_date
            && q.title == row.title && q.author == row.author && q.blocks == row.blocks
    ensures ToRow(ToPage(id, row)) == row
    ensures ToPage(p.id, ToRow(p)) == p
  {
  }

  /**
   * The anonymous filter as the query writes it, `publication_date <= ?`, as
   * SQLite evaluates it: a NULL date never passes; any text date, the empty
   * draft marker included, is compared as a string.
   */
  predicate SqlDateFilter(publicationDate: Option<string>, today: string)
  {
    publicationDate.Some? && AtMost(publicationDate.value, today)
  }

  /** A draft saved with the empty string as its date passes the filter as written whatever today is. */
  lemma EmptyDraftPassesAnonymousFilter(today: string)
    ensures SqlDateFilter(Some(""), today)
    ensures !Published(Some(""), today)
  {
  }

  /**
   * The anonymous filter as intended: a page is public once it has a
   * non-empty publication date that is not after today. The store runs the
   * filter as written; this one is what the client's front office applies.
   */
  predicate Published(publicationDate: Option<string>, today: string)
  {
    publicationDate.Some? && publicationDate.value != "" && AtMost(publicationDate.value, today)
  }

  /** The intended filter is the one written minus the drafts: both the NULL and the empty date are hidden. */
  lemma PublishedIsFilterWithoutDrafts(publicationDate: Option<string>, today: string)
    ensures Published(publicationDate, today) <==> SqlDateFilter(publicationDate, today) && publicationDate != Some("")
    ensures !Published(None, today) && !Published(Some(""), today)
  {
  }

  /** A page scheduled after today is not public; one dated today or earlier is. */
  lemma PublishedOnDates(date: string, today: string)
    requires date != ""
    ensures Published(Some(date), today) <==> date == today || Less(date, today)
    ensures Published(Some(date), today) <==> !Less(today, date)
  {
    AtMostIsLessOrEqual(date, today);
  }

  class PageStore {
    var rows: map<int, Row>
    var nextId: int

    ghost predicate Valid()
      reads this
    {
      nextId >= 1 && forall id :: id in rows ==> 1 <= id < nextId
    }

    constructor ()
      ensures Valid() && rows == map[] && nextId == 1
    {
      rows := map[];
      nextId := 1;
    }

    /** The row with this id exists and the caller may see it, under the filter as written. */
    predicate Selected(id: int, authenticated: bool, today: string)
      reads this
    {
      id in rows && (authenticated || SqlDateFilter(rows[id].publication_date, today))
    }

    /** The selected rows with ids from `lo` up, in id order, mapped to page objects. */
    function ListFrom(lo: int, authenticated: bool, today: string): (r: seq<Page>)
      reads this
      ensures forall p :: p in r <==> lo <= p.id < nextId && Selected(p.id, authenticated, today) && p == ToPage(p.id, rows[p.id])
      ensures forall i, j :: 0 <= i < j < |r| ==> r[i].id < r[j].id
      decreases nextId - lo
    {
      if lo >= nextId then []
      else
        var rest := ListFrom(lo + 1, authenticated, today);
        if Selected(lo, authenticated, today) then [ToPage(lo, rows[lo])] + rest else rest
    }

    /**
     * `getAllPages`: an authenticated caller gets every row, an anonymous one the
     * rows whose date passes `publication_date <= today`; in both cases in id order.
     */
    function GetAllPages(authenticated: bool, today: string): (r: seq<Page>)
      reads this
      requires Valid()
      ensures forall p :: p in r <==> p.id in rows && p == ToPage(p.id, rows[p.id])
                                      && (authenticated || SqlDateFilter(rows[p.id].publication_date, today))
      ensures forall i, j :: 0 <= i < j < |r| ==> r[i].id < r[j].id
    {
      ListFrom(1, authenticated, today)
    }

    /**
     * `getPageById`: the page, or the not-found object both when the id is
     * absent and when an anonymous caller may not see the row.
     */
    function GetPageById(id: int, authenticated: bool, today: string): (r: PageOrError)
      reads this
      ensures r.Found? <==> id in rows && (authenticated || SqlDateFilter(rows[id].publication_date, today))
      ensures r.Found? ==> r.page == ToPage(id, rows[id]) && r.page.id == id
      ensures r.Missing? ==> r.error == PageNotFound
    {
      if Selected(id, authenticated, today) then Found(ToPage(id, rows[id])) else Missing(PageNotFound)
    }

    /** A lookup by id finds a page exactly when the listing for the same caller holds it. */
    lemma LookupAgreesWithListing(id: int, authenticated: bool, today: string)
      requires Valid()
      ensures GetPageById(id, authenticated, today).Found? <==> exists p :: p in GetAllPages(authenticated, today) && p.id == id
      ensures GetPageById(id, authenticated, today).Found? ==> GetPageById(id, authenticated, today).page in GetAllPages(authenticated, today)
      ensures GetPageById(id, authenticated, today).Missing? ==> GetPageById(id, authenticated, today).error == PageNotFound
    {
      if Selected(id, authenticated, today) {
        assert ToPage(id, rows[id]) in GetAllPages(authenticated, today);
      }
    }

    /**
     * An anonymous lookup of a page without a date (NULL) or of a page scheduled
     * after today gives the same not-found object as a missing id.
     */
    lemma AnonymousLookupHidesUnpublished(id: int, today: string)
      requires id in rows
      requires var d := rows[id].publication_date;
               d.None? || Less(today, d.value)
      ensures GetPageById(id, false, today) == Missing(PageNotFound)
      ensures GetPageById(id, true, today) == Found(ToPage(id, rows[id]))
    {
    }

    /** A draft stored with the empty string as its date is handed to anonymous callers, whatever today is. */
    lemma AnonymousLookupShowsEmptyDraft(id: int, today: string)
      requires id in rows && rows[id].publication_date == Some("")
      ensures GetPageById(id, false, today) == Found(ToPage(id, rows[id]))
      ensures !Published(rows[id].publication_date, today)
    {
      EmptyDraftPassesAnonymousFilter(today);
    }

    /**
     * The anonymous listing holds the published pages and, beyond them, exactly
     * the drafts stored with the empty string as their date.
     */
    lemma AnonymousListingLeaksOnlyEmptyDrafts(today: string)
      requires Valid()
      ensures forall p: Page :: p in GetAllPages(false, today) <==>
                p.id in rows && p == ToPage(p.id, rows[p.id])
                && (Published(p.publicationDate, today) || p.publicationDate == Some(""))
    {
      forall p: Page | p.id in rows && p == ToPage(p.id, rows[p.id])
        ensures SqlDateFilter(rows[p.id].publication_date, today)
                <==> Published(p.publicationDate, today) || p.publicationDate == Some("")
      {
        PublishedIsFilterWithoutDrafts(p.publicationDate, today);
        EmptyDraftPassesAnonymousFilter(today);
      }
    }

    /**
     * `createPage`: inserts one row under a fresh id and resolves to that row
     * read back through the anonymous `getPageById`.
     */
    method CreatePage(data: Row, today: string) returns (r: PageOrError)
      requires Valid()
      modifies this
      ensures Valid()
      ensures old(nextId) !in old(rows)
      ensures rows == old(rows)[old(nextId) := data] && nextId == old(nextId) + 1
      ensures r == GetPageById(old(nextId), false, today)
    {
      var lastID := nextId;
      rows := rows[lastID := data];
      nextId := nextId + 1;
      r := GetPageById(lastID, false, today);
    }

    /**
     * `updatePage`: when exactly one row changed, resolves to it read back
     * through the anonymous `getPageById`; otherwise to `{error: 'No page updated.'}`.
     */
    method UpdatePage(id: int, data: Row, today: string) returns (r: PageOrError)
      requires Valid()
      modifies this
      ensures Valid() && nextId == old(nextId)
      ensures id in old(rows) ==> rows == old(rows)[id := data] && r == GetPageById(id, false, today)
      ensures id !in old(rows) ==> rows == old(rows) && r == Missing(NoPageUpdated)
    {
      var changes := if id in rows then 1 else 0;
      if changes != 1 {
        r := Missing(NoPageUpdated);
      } else {
        rows := rows[id := data];
        r := GetPageById(id, false, today);
      }
    }

    /** `deletePage`: `null` when exactly one row was removed, else `{error: 'No page deleted.'}`. */
    method DeletePage(id: int) returns (err: Option<string>)
      requires Valid()
      modifies this
      ensures Valid() && nextId == old(nextId)
      ensures err.None? <==> id in old(rows)
      ensures err.Some? ==> err.value == NoPageDeleted
      ensures rows == old(rows) - {id}
    {
      var changes := if id in rows then 1 else 0;
      rows := rows - {id};
      if changes != 1 {
        err := Some(NoPageDeleted);
      } else {
        err := None;
      }
    }
  }
}
