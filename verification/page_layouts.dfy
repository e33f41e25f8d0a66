/**
 * The front-office and back-office page lists (client/src/components/PageLayouts.jsx).
 *
 * Both lists sort the fetched summaries in place, newest first, with a
 * comparator on date strings; the sort is stable, so pages with equal dates
 * keep the order they were fetched in. The front office then keeps the
 * published pages; the back office splits the pages into the user's own and
 * the others'. "Today" is a parameter.
 */
module PageLayouts {
  import opened Wrappers
  import opened Strings
  import opened Seqs
  import opened Blocks
  import opened PageDao
  import opened Api
  import opened PageForm
  import Server

  datatype SortField = ByPublication | ByCreation

  function Key(p: PageSummary, f: SortField): string
  {
    if f == ByPublication then p.publicationDate else p.creationDate
  }

  /** Newest first: no page has a key below that of a page after it. */
  predicate Descending(s: seq<PageSummary>, f: SortField)
  {
    forall i, j :: 0 <= i < j < |s| ==> !Less(Key(s[i], f), Key(s[j], f))
  }

  // ---------------------------------------------------------------------------
  // The sort, specified

  /**
   * Where the sort puts `x` when the pages before it are already in order:
   * after the last page whose key is not below `x`'s, so equal keys keep their order.
   */
  function Insert(x: PageSummary, s: seq<PageSummary>, f: SortField): (r: seq<PageSummary>)
    ensures |r| == |s| + 1
    decreases |s|
  {
    if s == [] then [x]
    else if Less(Key(s[|s| - 1], f), Key(x, f)) then Insert(x, s[..|s| - 1], f) + [s[|s| - 1]]
    else s + [x]
  }

  /** Inserting adds `x` and loses nothing. */
  lemma {:induction false} InsertPermutes(x: PageSummary, s: seq<PageSummary>, f: SortField)
    ensures multiset(Insert(x, s, f)) == multiset(s) + multiset{x}
    decreases |s|
  {
    if s != [] && Less(Key(s[|s| - 1], f), Key(x, f)) {
      InsertPermutes(x, s[..|s| - 1], f);
      assert s == s[..|s| - 1] + [s[|s| - 1]];
    }
  }

  /** The list the comparator sort produces: each page in turn inserted into the sorted pages before it. */
  function SortDesc(s: seq<PageSummary>, f: SortField): (r: seq<PageSummary>)
    ensures |r| == |s|
    decreases |s|
  {
    if s == [] then [] else Insert(s[|s| - 1], SortDesc(s[..|s| - 1], f), f)
  }

  lemma {:induction false} InsertKeepsDescending(x: PageSummary, s: seq<PageSummary>, f: SortField)
    requires Descending(s, f)
    ensures Descending(Insert(x, s, f), f)
    decreases |s|
  {
    if s != [] {
      var init, last := s[..|s| - 1], s[|s| - 1];
      assert Descending(init, f) by {
        forall i, j | 0 <= i < j < |init| ensures !Less(Key(init[i], f), Key(init[j], f)) {
          assert init[i] == s[i] && init[j] == s[j];
        }
      }
      if Less(Key(last, f), Key(x, f)) {
        InsertKeepsDescending(x, init, f);
        InsertPermutes(x, init, f);
        var ins := Insert(x, init, f);
        var r := ins + [last];
        forall i, j | 0 <= i < j < |r| ensures !Less(Key(r[i], f), Key(r[j], f)) {
          if j == |r| - 1 {
            var y := r[i];
            assert y in multiset(ins);
            if y == x {
              LessAsymmetric(Key(last, f), Key(x, f));
            } else {
              assert y in init;
              var k :| 0 <= k < |init| && init[k] == y;
              assert s[k] == y && s[|s| - 1] == last;
            }
          } else {
            assert r[i] == ins[i] && r[j] == ins[j];
          }
        }
      } else {
        var r := s + [x];
        forall i, j | 0 <= i < j < |r| ensures !Less(Key(r[i], f), Key(r[j], f)) {
          if j == |r| - 1 && i < |s| - 1 {
            assert r[i] == s[i] && s[|s| - 1] == last;
            NotLessTransitive(Key(r[i], f), Key(last, f), Key(x, f));
          } else if j < |s| {
            assert r[i] == s[i] && r[j] == s[j];
          }
        }
      }
    }
  }

  /** The sorted list is newest first. */
  lemma {:induction false} SortDescIsDescending(s: seq<PageSummary>, f: SortField)
    ensures Descending(SortDesc(s, f), f)
    decreases |s|
  {
    if s != [] {
      SortDescIsDescending(s[..|s| - 1], f);
      InsertKeepsDescending(s[|s| - 1], SortDesc(s[..|s| - 1], f), f);
    }
  }

  /** The sorted list holds the same pages, each as often as before. */
  lemma {:induction false} SortDescPermutes(s: seq<PageSummary>, f: SortField)
    ensures multiset(SortDesc(s, f)) == multiset(s)
    decreases |s|
  {
    if s != [] {
      var init, last := s[..|s| - 1], s[|s| - 1];
      var sorted := SortDesc(init, f);
      SortDescPermutes(init, f);
      InsertPermutes(last, sorted, f);
      assert s == init + [last];
      calc {
        multiset(SortDesc(s, f));
        multiset(Insert(last, sorted, f));
        multiset(sorted) + multiset{last};
        multiset(init) + multiset{last};
        multiset(s);
      }
    }
  }

  // ---------------------------------------------------------------------------
  // The sort, in place

  /** `pages.sort(comparator)`, newest first by the chosen date. */
  method SortDescending(a: array<PageSummary>, f: SortField)
    modifies a
    ensures a[..] == SortDesc(old(a[..]), f)
    ensures Descending(a[..], f) && multiset(a[..]) == multiset(old(a[..]))
  {
    ghost var input := a[..];
    var i := 0;
    while i < a.Length
      invariant 0 <= i <= a.Length
      invariant a[..i] == SortDesc(input[..i], f)
      invariant a[i..] == input[i..]
    {
      ghost var before := a[..];
      InsertNext(a, i, f);
      SortStep(input, before, a[..], i, f);
      i := i + 1;
    }
    assert input[..a.Length] == input && a[..a.Length] == a[..];
    SortDescIsDescending(input, f);
    SortDescPermutes(input, f);
  }

  /** One insertion extends the sorted prefix by one page and leaves the rest alone. */
  lemma SortStep(input: seq<PageSummary>, before: seq<PageSummary>, after: seq<PageSummary>, i: int, f: SortField)
    requires 0 <= i < |input| == |before| == |after|
    requires before[..i] == SortDesc(input[..i], f) && before[i..] == input[i..]
    requires after[..i + 1] == Insert(before[i], before[..i], f) && after[i + 1..] == before[i + 1..]
    ensures after[..i + 1] == SortDesc(input[..i + 1], f) && after[i + 1..] == input[i + 1..]
  {
    assert input[..i + 1][..i] == input[..i];
    assert before[i] == before[i..][0] == input[i];
    assert before[i + 1..] == before[i..][1..];
    assert input[i + 1..] == input[i..][1..];
  }

  /** One step of the sort: shifts the pages before `a[i]` that sort after it, and drops it into the gap. */
  method InsertNext(a: array<PageSummary>, i: int, f: SortField)
    requires 0 <= i < a.Length
    modifies a
    ensures a[..i + 1] == Insert(old(a[i]), old(a[..i]), f)
    ensures a[i + 1..] == old(a[i + 1..])
  {
    var x := a[i];
    ghost var sorted := a[..i];
    ghost var rest := a[i + 1..];
    var j := ShiftGreater(a, i, f);
    a[j] := x;
    Assemble(a[..i + 1], sorted, j, x);
    InsertAt(x, sorted, j, f);
    forall k | 0 <= k < |rest| ensures a[i + 1..][k] == rest[k] {
      assert a[i + 1 + k] == old(a[i + 1 + k]);
    }
  }

  /**
   * Moves one place right every page before `a[i]` that sorts below it, from
   * the nearest one back, and returns the gap left where `a[i]` belongs.
   */
  method ShiftGreater(a: array<PageSummary>, i: int, f: SortField) returns (j: int)
    requires 0 <= i < a.Length
    modifies a
    ensures 0 <= j <= i
    ensures forall k :: 0 <= k < j ==> a[k] == old(a[k])
    ensures forall k :: j < k <= i ==> a[k] == old(a[k - 1])
    ensures forall k :: i < k < a.Length ==> a[k] == old(a[k])
    ensures j == 0 || !Less(Key(old(a[j - 1]), f), Key(old(a[i]), f))
    ensures forall k :: j <= k < i ==> Less(Key(old(a[k]), f), Key(old(a[i]), f))
  {
    var x := a[i];
    j := i;
    while j > 0 && Less(Key(a[j - 1], f), Key(x, f))
      invariant 0 <= j <= i
      invariant forall k :: 0 <= k < j ==> a[k] == old(a[k])
      invariant forall k :: j < k <= i ==> a[k] == old(a[k - 1])
      invariant forall k :: i < k < a.Length ==> a[k] == old(a[k])
      invariant forall k :: j <= k < i ==> Less(Key(old(a[k]), f), Key(x, f))
    {
      a[j] := a[j - 1];
      j := j - 1;
    }
  }

  /**
   * `x` lands at `j` when the page before `j` does not sort below it and every
   * page from `j` on does.
   */
  lemma {:induction false} InsertAt(x: PageSummary, sorted: seq<PageSummary>, j: int, f: SortField)
    requires 0 <= j <= |sorted|
    requires j == 0 || !Less(Key(sorted[j - 1], f), Key(x, f))
    requires forall k :: j <= k < |sorted| ==> Less(Key(sorted[k], f), Key(x, f))
    ensures Insert(x, sorted, f) == sorted[..j] + [x] + sorted[j..]
    decreases |sorted|
  {
    if j < |sorted| {
      var init, last := sorted[..|sorted| - 1], sorted[|sorted| - 1];
      assert Less(Key(last, f), Key(x, f));
      InsertAt(x, init, j, f);
      assert init[..j] == sorted[..j];
      assert init[j..] + [last] == sorted[j..];
    }
  }

  /** A list holding `sorted` with `x` dropped in at position `j`. */
  lemma Assemble(s: seq<PageSummary>, sorted: seq<PageSummary>, j: int, x: PageSummary)
    requires 0 <= j <= |sorted| && |s| == |sorted| + 1
    requires forall k :: 0 <= k < j ==> s[k] == sorted[k]
    requires s[j] == x
    requires forall k :: j < k < |s| ==> s[k] == sorted[k - 1]
    ensures s == sorted[..j] + [x] + sorted[j..]
  {
    var r := sorted[..j] + [x] + sorted[j..];
    forall k | 0 <= k < |s| ensures s[k] == r[k] {
      if k > j {
        assert r[k] == sorted[j..][k - j - 1];
      }
    }
  }

  // ---------------------------------------------------------------------------
  // Front office

  /** The front-office filter: a non-empty publication date that is not after today. */
  predicate IsPublished(publicationDate: string, today: string)
  {
    publicationDate != "" && AtMost(publicationDate, today)
  }

  function PublishedBy(today: string): PageSummary -> bool
  {
    (p: PageSummary) => IsPublished(p.publicationDate, today)
  }

  /** The front-office filter keeps exactly the pages whose card reads "Published". */
  lemma FilterMatchesStatusLabel(publicationDate: string, today: string)
    ensures IsPublished(publicationDate, today) <==> StatusOf(publicationDate, today) == Published
  {
  }

  /**
   * The store's anonymous filter and the front-office filter agree once the
   * client has normalised the date: an anonymous caller is sent exactly the
   * pages the front office shows.
   */
  lemma StoreFilterMatchesFrontOffice(publicationDate: Option<string>, today: string)
    ensures PageDao.Published(publicationDate, today) <==> IsPublished(NormalizeDate(publicationDate), today)
    ensures SqlDateFilter(publicationDate, today) && !IsPublished(NormalizeDate(publicationDate), today)
            ==> publicationDate == Some("")
  {
  }

  /** The front office: sort by publication date, then keep the published pages, still newest first. */
  method FrontOffice(a: array<PageSummary>, today: string) returns (shown: seq<PageSummary>)
    modifies a
    ensures a[..] == SortDesc(old(a[..]), ByPublication)
    ensures shown == Filter(a[..], PublishedBy(today))
    ensures forall p :: p in shown <==> p in old(a[..]) && IsPublished(p.publicationDate, today)
    ensures Descending(shown, ByPublication)
  {
    SortDescending(a, ByPublication);
    shown := Filter(a[..], PublishedBy(today));
    FilterKeepsDescending(a[..], PublishedBy(today), ByPublication);
    forall p ensures p in old(a[..]) <==> p in a[..] {
      assert p in old(a[..]) <==> p in multiset(old(a[..]));
    }
  }

  /** Filtering a newest-first list keeps it newest first. */
  lemma FilterKeepsDescending(s: seq<PageSummary>, keep: PageSummary -> bool, f: SortField)
    requires Descending(s, f)
    ensures Descending(Filter(s, keep), f)
  {
    var le := (p: PageSummary, q: PageSummary) => !Less(Key(p, f), Key(q, f));
    assert Ordered(s, le);
    FilterKeepsOrder(s, keep, le);
    var r := Filter(s, keep);
    forall i, j | 0 <= i < j < |r| ensures !Less(Key(r[i], f), Key(r[j], f)) {
      assert le(r[i], r[j]);
    }
  }

  // ---------------------------------------------------------------------------
  // Back office

  function AuthoredBy(name: string): PageSummary -> bool
  {
    (p: PageSummary) => p.author == name
  }

  function NotAuthoredBy(name: string): PageSummary -> bool
  {
    (p: PageSummary) => p.author != name
  }

  /**
   * The back office: sort by creation date, then split into the user's pages and
   * the other authors' pages. The two lists are disjoint, together hold every
   * page, and each is newest first.
   */
  method BackOffice(a: array<PageSummary>, userName: string) returns (myPages: seq<PageSummary>, otherPages: seq<PageSummary>)
    modifies a
    ensures a[..] == SortDesc(old(a[..]), ByCreation)
    ensures myPages == Filter(a[..], AuthoredBy(userName)) && otherPages == Filter(a[..], NotAuthoredBy(userName))
    ensures forall p :: p in myPages ==> p.author == userName
    ensures forall p :: p in otherPages ==> p.author != userName
    ensures multiset(myPages) + multiset(otherPages) == multiset(old(a[..]))
    ensures Descending(myPages, ByCreation) && Descending(otherPages, ByCreation)
  {
    SortDescending(a, ByCreation);
    myPages := Filter(a[..], AuthoredBy(userName));
    otherPages := Filter(a[..], NotAuthoredBy(userName));
    FilterPartition(a[..], AuthoredBy(userName), NotAuthoredBy(userName));
    FilterKeepsDescending(a[..], AuthoredBy(userName), ByCreation);
    FilterKeepsDescending(a[..], NotAuthoredBy(userName), ByCreation);
  }

  // ---------------------------------------------------------------------------
  // Page cards and the website name

  datatype Card = PageCard | PersonalPageCard

  /** The user's own pages always get the card with edit and delete; other pages only for an admin. */
  function CardFor(p: PageSummary, user: ClientUser): (c: Card)
    ensures c == PersonalPageCard <==> p.author == user.name || user.isAdmin == 1
  {
    if p.author == user.name then PersonalPageCard
    else if user.isAdmin == 1 then PersonalPageCard
    else PageCard
  }

  /**
   * For a user whose flag is 0 or 1, the delete control is shown exactly when
   * the server would accept the delete of that page.
   */
  lemma DeleteControlMatchesServer(p: PageSummary, user: ClientUser, stored: Page)
    requires user.isAdmin == 0 || user.isAdmin == 1
    requires stored.author == p.author
    ensures CardFor(p, user) == PersonalPageCard
            <==> Server.DeleteVerdict(Server.User(user.name, user.isAdmin != 0), Found(stored)) == Server.Proceed
  {
  }

  const EmptySiteName: string := "Website name cannot be empty"

  /** The website-name form: the trimmed input, refused when nothing but white space was typed. */
  function SiteNameSubmit(input: string): (r: Result<string, string>)
    ensures r.Err? <==> AllSpace(input)
    ensures r.Err? ==> r.error == EmptySiteName
    ensures r.Ok? ==> r.value != "" && r.value == Trim(input) && Trim(r.value) == r.value
  {
    var name := Trim(input);
    TrimmedName(input, name);
    if name == "" then Err(EmptySiteName) else Ok(name)
  }

  /** What the form relies on about the trimmed input. */
  lemma TrimmedName(input: string, name: string)
    requires name == Trim(input)
    ensures name == "" <==> AllSpace(input)
    ensures Trim(name) == name
  {
    TrimEmptyIffAllSpace(input);
    TrimIdempotent(input);
  }

  /**
   * A name that is not all white space is let through by the form as its
   * trimmed text; when that text is at most 160 characters long and holds a
   * character other than a variation selector, the server stores it for an admin.
   */
  lemma SiteNameAcceptedByServer(input: string, adminName: string)
    requires !AllSpace(input)
    requires |Trim(input)| <= 160 && Server.SelectorCount(Trim(input)) < |Trim(input)|
    ensures SiteNameSubmit(input) == Ok(Trim(input))
    ensures Server.SiteNameVerdict(Server.User(adminName, true), Trim(input)) == Server.Proceed
  {
    Server.AdminWithGoodNameProceeds(adminName, Trim(input));
  }

  /**
   * The form and the server measure a name differently: a lone variation
   * selector is not white space, so the form sends it, and the server's
   * length check, which does not count it, refuses it with 422.
   */
  lemma LoneSelectorNameIsRefused(adminName: string)
    ensures SiteNameSubmit("\U{FE0F}") == Ok("\U{FE0F}")
    ensures Server.SiteNameVerdict(Server.User(adminName, true), "\U{FE0F}").status == 422
  {
    assert !IsSpace('\U{FE0F}');
    assert Trim("\U{FE0F}") == "\U{FE0F}";
    assert Server.SelectorCount("\U{FE0F}") == 1;
  }
}
