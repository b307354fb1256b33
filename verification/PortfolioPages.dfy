/** The portfolio listing: keyset pages of the database with one synthetic project spliced in front. */
module PortfolioPages {
  import opened Orders
  import opened Options
  import M = Memberships

  datatype Project = Project(id: string, organization: string, updatedAt: int)

  datatype Actor = Actor(id: string, organization: string, roles: set<M.Role>)

  /** What stays fixed while a client turns pages: the tables, the caller, the test a project must pass
      for the search text and states asked for, and whether the diagnostic project passes its own. */
  datatype Query = Query(
    projects: seq<Project>, memberships: seq<M.Membership>, actor: Actor, wanted: Project -> bool, diagnostic: bool)

  /** Where a database page ended; in this order later projects come first. */
  datatype Key = Key(updatedAt: int, id: string)

  datatype Cursor = DatabaseFirstPage | Encoded(scope: string, key: Key) | Malformed

  datatype Item = Diagnostic | Stored(project: Project)

  datatype Page<T> = Page(items: seq<T>, next: Option<Cursor>)

  datatype Response<T> = Ok(value: T) | SystemActor | LimitOutOfRange | InvalidCursor

  // ----- the database query -----

  predicate IsBefore(p: Project, key: Key) {
    p.updatedAt < key.updatedAt || (p.updatedAt == key.updatedAt && Below(p.id, key.id))
  }

  function KeyOf(p: Project): Key {
    Key(p.updatedAt, p.id)
  }

  /** ORDER BY updated_at DESC, id DESC */
  predicate Newer(p: Project, q: Project) {
    IsBefore(q, KeyOf(p))
  }

  function ActorMask(actor: Actor): bv32 {
    M.MaskSum(actor.roles)
  }

  predicate MasksMeet(membership: M.Membership, actor: Actor) {
    membership.roleMask & ActorMask(actor) != 0
  }

  /** The join with the caller's latest membership. */
  predicate Sees(q: Query, p: Project) {
    var membership := M.Latest(q.memberships, p.id, q.actor.id);
    && membership.Some? && membership.value.active && MasksMeet(membership.value, q.actor)
    && p.organization == q.actor.organization
  }

  function Matching(q: Query): seq<Project> {
    Filter(q.projects, p => Sees(q, p) && q.wanted(p))
  }

  function After(rows: seq<Project>, key: Option<Key>): seq<Project> {
    if key.None? then rows else Filter(rows, p => IsBefore(p, key.value))
  }

  function Take<T>(xs: seq<T>, n: nat): seq<T> {
    if |xs| <= n then xs else xs[..n]
  }

  function Decode(cursor: Option<Cursor>): Response<Option<Key>> {
    if cursor.None? then Ok(None)
    else if cursor.value.Encoded? && cursor.value.scope == "projects" then Ok(Some(cursor.value.key))
    else InvalidCursor
  }

  /** The read service's page. */
  function DatabasePage(q: Query, limit: int, cursor: Option<Cursor>): Response<Page<Project>> {
    if M.SYSTEM in q.actor.roles then SystemActor
    else if limit < 1 || limit > 100 then LimitOutOfRange
    else
      var key := Decode(cursor);
      if !key.Ok? then InvalidCursor
      else if ActorMask(q.actor) == 0 then Ok(Page([], None))
      else
        Ok(Cut(Sort(After(Matching(q), key.value), Newer), limit))
  }

  /** One row more than asked for is read, to tell whether there is a next page. */
  function Cut(sorted: seq<Project>, limit: nat): Page<Project>
    requires limit > 0
  {
    var rows := Take(sorted, limit + 1);
    var selected := Take(rows, limit);
    Page(selected, if |rows| > limit then Some(Encoded("projects", KeyOf(selected[|selected| - 1]))) else None)
  }

  // ----- the endpoint -----

  function StoredItems(projects: seq<Project>): seq<Item> {
    seq(|projects|, i requires 0 <= i < |projects| => Stored(projects[i]))
  }

  function ListProjects(q: Query, limit: int, cursor: Option<Cursor>): Response<Page<Item>> {
    if limit < 1 || limit > 100 then LimitOutOfRange
    else
      var showDiagnostic := q.diagnostic && cursor.None?;
      var resumeDatabaseFirstPage := q.diagnostic && cursor == Some(DatabaseFirstPage);
      if showDiagnostic && limit == 1 then
        match DatabasePage(q, 1, None)
        case Ok(probe) => Ok(Page([Diagnostic], if probe.items == [] then None else Some(DatabaseFirstPage)))
        case SystemActor => SystemActor
        case LimitOutOfRange => LimitOutOfRange
        case InvalidCursor => InvalidCursor
      else
        match DatabasePage(q, if showDiagnostic then limit - 1 else limit, if resumeDatabaseFirstPage then None else cursor)
        case Ok(page) =>
          Ok(Page(if showDiagnostic then [Diagnostic] + StoredItems(page.items) else StoredItems(page.items), page.next))
        case SystemActor => SystemActor
        case LimitOutOfRange => LimitOutOfRange
        case InvalidCursor => InvalidCursor
  }

  // ----- what the pages are pages of -----

  /** Project ids are the primary key. */
  predicate Keyed(q: Query) {
    forall i, j :: 0 <= i < j < |q.projects| ==> q.projects[i].id != q.projects[j].id
  }

  function Listing(q: Query): seq<Project> {
    Sort(Matching(q), Newer)
  }

  function Whole(q: Query): seq<Item> {
    if q.diagnostic then [Diagnostic] + StoredItems(Listing(q)) else StoredItems(Listing(q))
  }

  lemma NewerIsStrict()
    ensures forall p :: !Newer(p, p)
    ensures forall p, q, r :: Newer(p, q) && Newer(q, r) ==> Newer(p, r)
  {
    forall p ensures !Newer(p, p) { BelowIrreflexive(p.id); }
    forall p, q, r | Newer(p, q) && Newer(q, r) ensures Newer(p, r) {
      if p.updatedAt == q.updatedAt == r.updatedAt { BelowTransitive(r.id, q.id, p.id); }
    }
  }

  lemma NewerSeparates(q: Query, rows: seq<Project>)
    requires Keyed(q) && forall p :: p in rows ==> p in q.projects
    ensures Separates(Newer, ToSet(rows))
  {
    NewerIsStrict();
    forall x, y | x in rows && y in rows && x != y ensures Newer(x, y) || Newer(y, x) {
      BelowTotal(x.id, y.id);
    }
  }

  /** In the order of the columns: the later update first, and of equal ones the greater id first. */
  ghost predicate NewestFirst(listing: seq<Project>) {
    forall i, j :: 0 <= i < j < |listing| ==>
      || listing[i].updatedAt > listing[j].updatedAt
      || (listing[i].updatedAt == listing[j].updatedAt && Precedes(listing[j].id, listing[i].id))
  }

  lemma AscendingIsNewestFirst(listing: seq<Project>)
    requires Ascending(listing, Newer)
    ensures NewestFirst(listing)
  {
    forall i, j | 0 <= i < j < |listing|
      ensures || listing[i].updatedAt > listing[j].updatedAt
              || (listing[i].updatedAt == listing[j].updatedAt && Precedes(listing[j].id, listing[i].id))
    {
      assert Newer(listing[i], listing[j]);
      BelowIsPrecedes(listing[j].id, listing[i].id);
    }
  }

  /** The listing holds exactly the projects the caller sees and asked for, each once, newest first. */
  lemma ListingCorrect(q: Query)
    requires Keyed(q)
    ensures forall p :: p in Listing(q) <==> p in q.projects && Sees(q, p) && q.wanted(p)
    ensures Ascending(Listing(q), Newer) && Distinct(Listing(q)) && NewestFirst(Listing(q))
    ensures forall p :: p in Matching(q) ==> p in q.projects
    ensures Distinct(Matching(q)) && ToSet(Listing(q)) == ToSet(Matching(q))
  {
    FilterKeeps(q.projects, p => Sees(q, p) && q.wanted(p));
    NewerSeparates(q, Matching(q));
    SortCorrect(Matching(q), Newer);
    AscendingIsNewestFirst(Listing(q));
    NewerIsStrict();
    hide NewestFirst;
    forall p ensures p in Listing(q) <==> p in Matching(q) {
      assert p in ToSet(Listing(q)) <==> p in ToSet(Matching(q));
    }
  }

  lemma RestIsOlder(whole: seq<Project>, k: nat)
    requires Ascending(whole, Newer) && 0 < k <= |whole|
    ensures forall p :: p in whole[k..] <==> p in whole && Newer(whole[k - 1], p)
    ensures Ascending(whole[k..], Newer)
  {
    NewerIsStrict();
    hide Newer;
    var last := whole[k - 1];
    forall p ensures p in whole[k..] <==> p in whole && Newer(last, p) {
      if p in whole {
        var j :| 0 <= j < |whole| && whole[j] == p;
        assert j >= k ==> whole[k..][j - k] == p;
        assert j < k - 1 ==> Newer(p, last);
      }
    }
  }

  /** Asking for what comes after the k-th project gives the listing from there on. */
  lemma RestOfListing(q: Query, k: nat)
    requires Keyed(q) && 0 < k <= |Listing(q)|
    ensures Sort(After(Matching(q), Some(KeyOf(Listing(q)[k - 1]))), Newer) == Listing(q)[k..]
  {
    var whole := Listing(q);
    var last := whole[k - 1];
    var rows := After(Matching(q), Some(KeyOf(last)));
    ListingCorrect(q);
    FilterKeeps(Matching(q), p => IsBefore(p, KeyOf(last)));
    NewerIsStrict();
    hide Listing, Matching;
    NewerSeparates(q, rows);
    SortCorrect(rows, Newer);
    RestIsOlder(whole, k);
    hide Ascending, Separates, Keyed, Distinct;
    forall p ensures p in rows <==> p in whole[k..] {
      assert p in ToSet(whole) <==> p in ToSet(Matching(q));
      NewerMeans(last, p);
    }
    hide After, Newer;
    assert ToSet(rows) == ToSet(whole[k..]);
    AscendingUnique(Sort(rows, Newer), whole[k..], Newer);
  }

  lemma NewerMeans(p: Project, q: Project)
    ensures Newer(p, q) <==> IsBefore(q, KeyOf(p))
  {
  }

  lemma FirstIsIn<T>(xs: seq<T>)
    ensures xs == [] || xs[0] in xs
  {
  }

  lemma NobodyWithoutRoles(q: Query)
    requires ActorMask(q.actor) == 0
    ensures Listing(q) == []
  {
    FilterKeeps(q.projects, p => Sees(q, p) && q.wanted(p));
    forall p ensures !Sees(q, p) {
      var latest := M.Latest(q.memberships, p.id, q.actor.id);
      assert latest.Some? ==> !MasksMeet(latest.value, q.actor) by {
        assert latest.Some? ==> latest.value.roleMask & 0 == 0;
      }
    }
    FirstIsIn(Matching(q));
  }

  /** `cursor` resumes the database listing after its first k projects. */
  predicate ResumesAt(q: Query, cursor: Option<Cursor>, k: nat) {
    if cursor.None? then k == 0
    else 0 < k <= |Listing(q)| && cursor.value == Encoded("projects", KeyOf(Listing(q)[k - 1]))
  }

  predicate MayRead(q: Query) {
    Keyed(q) && M.SYSTEM !in q.actor.roles
  }

  /** At most n members of `xs` from the k-th on. */
  function Stretch<T>(xs: seq<T>, k: nat, n: nat): seq<T>
    requires k <= |xs|
  {
    Take(xs[k..], n)
  }

  lemma RowsFrom(q: Query, cursor: Option<Cursor>, k: nat)
    requires MayRead(q) && ResumesAt(q, cursor, k)
    ensures k <= |Listing(q)| && Decode(cursor).Ok?
    ensures Sort(After(Matching(q), Decode(cursor).value), Newer) == Listing(q)[k..]
  {
    if cursor.Some? {
      hide After, Newer;
      RestOfListing(q, k);
    } else {
      assert Listing(q)[0..] == Listing(q);
    }
  }

  lemma CutIsStretch(listing: seq<Project>, k: nat, limit: nat)
    requires k <= |listing| && limit > 0
    ensures var page := Cut(listing[k..], limit);
            && page.items == Stretch(listing, k, limit)
            && page.next == if |listing| <= k + limit then None
                            else Some(Encoded("projects", KeyOf(listing[k + limit - 1])))
  {
    hide KeyOf;
  }

  /** A database page is a stretch of the listing. */
  lemma DatabasePageIsSlice(q: Query, limit: int, cursor: Option<Cursor>, k: nat)
    requires MayRead(q) && 1 <= limit <= 100 && ResumesAt(q, cursor, k)
    ensures var page := DatabasePage(q, limit, cursor);
            && page.Ok? && k <= |Listing(q)| && page.value.items == Stretch(Listing(q), k, limit)
            && (page.value.next.None? <==> |Listing(q)| <= k + limit)
            && (page.value.next.Some? ==> ResumesAt(q, page.value.next, k + limit))
  {
    RowsFrom(q, cursor, k);
    if ActorMask(q.actor) == 0 { NobodyWithoutRoles(q); }
    hide Listing, After, Matching, Decode, Newer, ActorMask;
    CutIsStretch(Listing(q), k, limit);
    hide Cut, KeyOf;
  }

  /** `cursor` resumes the whole portfolio after its first k items. */
  predicate PortfolioAt(q: Query, cursor: Option<Cursor>, k: nat) {
    if cursor.None? then k == 0
    else if q.diagnostic then
      k > 0 && if cursor.value.DatabaseFirstPage? then k == 1 else ResumesAt(q, cursor, k - 1)
    else ResumesAt(q, cursor, k)
  }

  /** A response is the stretch of the portfolio from the k-th item on. */
  ghost predicate IsStretch(q: Query, response: Response<Page<Item>>, k: nat, limit: nat) {
    && response.Ok? && k <= |Whole(q)| && response.value.items == Stretch(Whole(q), k, limit)
    && (response.value.next.None? <==> |Whole(q)| <= k + limit)
    && (response.value.next.Some? ==> PortfolioAt(q, response.value.next, k + limit))
  }

  lemma StartsAtZero(q: Query)
    ensures ResumesAt(q, None, 0)
  {
  }

  lemma ItemsOfSlice(listing: seq<Project>, k: nat, limit: nat)
    requires k <= |listing|
    ensures |StoredItems(listing)| == |listing|
    ensures StoredItems(Stretch(listing, k, limit)) == Stretch(StoredItems(listing), k, limit)
    ensures StoredItems(Stretch(listing, k, limit)) == Stretch([Diagnostic] + StoredItems(listing), k + 1, limit)
  {
    var items := [Diagnostic] + StoredItems(listing);
    assert items[k + 1..] == StoredItems(listing)[k..];
  }

  lemma ItemsAfterDiagnostic(listing: seq<Project>, n: nat)
    ensures [Diagnostic] + StoredItems(Stretch(listing, 0, n)) == Stretch([Diagnostic] + StoredItems(listing), 0, n + 1)
  {
    assert listing[0..] == listing;
    var items := [Diagnostic] + StoredItems(listing);
    assert items[0..] == items;
  }

  lemma FirstPageWithDiagnostic(q: Query, limit: int)
    requires MayRead(q) && 1 <= limit <= 100 && q.diagnostic
    ensures IsStretch(q, ListProjects(q, limit, None), 0, limit)
  {
    StartsAtZero(q);
    DatabasePageIsSlice(q, if limit == 1 then 1 else limit - 1, None, 0);
    hide DatabasePage, Listing, ResumesAt, StoredItems;
    ItemsOfSlice(Listing(q), 0, limit - 1);
    ItemsAfterDiagnostic(Listing(q), limit - 1);
    if limit == 1 {
      ProbeTells(Listing(q));
    }
    hide Stretch;
  }

  lemma ProbeTells(listing: seq<Project>)
    ensures Stretch(listing, 0, 1) == [] <==> listing == []
    ensures StoredItems(Stretch(listing, 0, 0)) == []
  {
    assert listing[0..] == listing;
  }

  lemma WholeStretch(q: Query, k: nat, limit: nat)
    requires k <= |Listing(q)|
    ensures var d := if q.diagnostic then 1 else 0;
            && |Whole(q)| == |Listing(q)| + d
            && Stretch(Whole(q), k + d, limit) == StoredItems(Stretch(Listing(q), k, limit))
  {
    hide Listing, Stretch, StoredItems;
    ItemsOfSlice(Listing(q), k, limit);
  }

  lemma ResumedPage(q: Query, limit: int)
    requires MayRead(q) && 1 <= limit <= 100 && q.diagnostic
    ensures IsStretch(q, ListProjects(q, limit, Some(DatabaseFirstPage)), 1, limit)
  {
    StartsAtZero(q);
    DatabasePageIsSlice(q, limit, None, 0);
    WholeStretch(q, 0, limit);
    hide DatabasePage, Listing, StoredItems, Stretch, ResumesAt, Whole, MayRead;
    var page := DatabasePage(q, limit, None).value;
    assert page.next.Some? ==> page.next.value != DatabaseFirstPage by {
      if page.next.Some? { NoSentinel(q, page.next, limit); }
    }
    assert ListProjects(q, limit, Some(DatabaseFirstPage)) == Ok(Page(StoredItems(page.items), page.next));
    hide ListProjects;
  }

  lemma NoSentinel(q: Query, cursor: Option<Cursor>, k: nat)
    requires ResumesAt(q, cursor, k)
    ensures cursor != Some(DatabaseFirstPage) && k <= |Listing(q)| && (cursor.None? <==> k == 0)
  {
  }

  lemma WithoutDiagnostic(q: Query, limit: int, cursor: Option<Cursor>)
    requires 1 <= limit <= 100 && cursor != Some(DatabaseFirstPage) && (q.diagnostic ==> cursor.Some?)
    requires DatabasePage(q, limit, cursor).Ok?
    ensures var page := DatabasePage(q, limit, cursor).value;
            ListProjects(q, limit, cursor) == Ok(Page(StoredItems(page.items), page.next))
  {
    hide DatabasePage, StoredItems;
  }

  lemma NextPlace(q: Query, next: Option<Cursor>, n: nat)
    requires ResumesAt(q, next, n) && next.Some?
    ensures PortfolioAt(q, next, if q.diagnostic then n + 1 else n)
  {
    NoSentinel(q, next, n);
    hide ResumesAt;
  }

  lemma LaterPage(q: Query, limit: int, cursor: Option<Cursor>, k: nat)
    requires MayRead(q) && 1 <= limit <= 100 && ResumesAt(q, cursor, k) && (q.diagnostic ==> cursor.Some?)
    ensures IsStretch(q, ListProjects(q, limit, cursor), if q.diagnostic then k + 1 else k, limit)
  {
    hide ListProjects, DatabasePage, Listing, StoredItems, Stretch, ResumesAt, MayRead, Whole, PortfolioAt;
    NoSentinel(q, cursor, k);
    DatabasePageIsSlice(q, limit, cursor, k);
    WithoutDiagnostic(q, limit, cursor);
    var page := DatabasePage(q, limit, cursor).value;
    WholeStretch(q, k, limit);
    if page.next.Some? { NextPlace(q, page.next, k + limit); }
  }

  /** Every page is the next stretch of the whole portfolio, and its cursor leads on exactly when more is left. */
  lemma PageIsSlice(q: Query, limit: int, cursor: Option<Cursor>, k: nat)
    requires MayRead(q) && 1 <= limit <= 100 && PortfolioAt(q, cursor, k) && k <= |Whole(q)|
    ensures var page := ListProjects(q, limit, cursor);
            && page.Ok? && page.value.items == Stretch(Whole(q), k, limit)
            && (page.value.next.None? <==> |Whole(q)| <= k + limit)
            && (page.value.next.Some? ==> PortfolioAt(q, page.value.next, k + limit))
  {
    hide ListProjects, Whole, Stretch, ResumesAt;
    if !q.diagnostic {
      StartsAtZero(q);
      LaterPage(q, limit, cursor, k);
    } else if cursor.None? {
      FirstPageWithDiagnostic(q, limit);
    } else if cursor.value.DatabaseFirstPage? {
      ResumedPage(q, limit);
    } else {
      LaterPage(q, limit, cursor, k - 1);
    }
  }

  // ----- following the cursor -----

  /** The pages a client gets that asks for the given numbers of items, one after the other. */
  function Walk(q: Query, limits: seq<int>, cursor: Option<Cursor>): seq<Response<Page<Item>>>
    decreases |limits|
  {
    if limits == [] then []
    else
      var page := ListProjects(q, limits[0], cursor);
      [page] + if page.Ok? && page.value.next.Some? then Walk(q, limits[1..], page.value.next) else []
  }

  predicate AllOk(pages: seq<Response<Page<Item>>>) {
    forall page :: page in pages ==> page.Ok?
  }

  function Items(pages: seq<Response<Page<Item>>>): seq<Item>
    requires AllOk(pages)
  {
    if pages == [] then [] else pages[0].value.items + Items(pages[1..])
  }

  function Sum(limits: seq<int>): int {
    if limits == [] then 0 else limits[0] + Sum(limits[1..])
  }

  predicate ValidLimits(limits: seq<int>) {
    forall i :: 0 <= i < |limits| ==> 1 <= limits[i] <= 100
  }

  predicate Finished(pages: seq<Response<Page<Item>>>) {
    pages != [] && pages[|pages| - 1].Ok? && pages[|pages| - 1].value.next.None?
  }

  lemma {:induction false} SumAtLeastCount(limits: seq<int>)
    requires ValidLimits(limits)
    ensures |limits| <= Sum(limits)
  {
    if limits != [] { SumAtLeastCount(limits[1..]); }
  }

  lemma FirstPage(page: Response<Page<Item>>, rest: seq<Response<Page<Item>>>)
    requires page.Ok? && AllOk(rest)
    ensures AllOk([page] + rest) && Items([page] + rest) == page.value.items + Items(rest)
    ensures Finished([page] + rest) <==> if rest == [] then page.value.next.None? else Finished(rest)
  {
    assert ([page] + rest)[1..] == rest;
  }

  lemma EmptyStretch(whole: seq<Item>, k: nat)
    requires k <= |whole|
    ensures Stretch(whole, k, 0) == []
  {
  }

  lemma StretchToEnd(whole: seq<Item>, k: nat, n: nat, m: nat)
    requires k <= |whole| <= k + n && n <= m
    ensures Stretch(whole, k, n) == Stretch(whole, k, m)
  {
  }

  lemma TakeMore(whole: seq<Item>, k: nat, n: nat, m: nat)
    requires k + n <= |whole|
    ensures Stretch(whole, k, n) + Stretch(whole, k + n, m) == Stretch(whole, k, n + m)
  {
    assert whole[k..][n..] == whole[k + n..];
  }

  lemma {:induction false} WalkFrom(q: Query, limits: seq<int>, cursor: Option<Cursor>, k: nat)
    requires MayRead(q) && ValidLimits(limits) && PortfolioAt(q, cursor, k) && k <= |Whole(q)|
    ensures var pages := Walk(q, limits, cursor);
            && AllOk(pages) && Sum(limits) >= 0 && Items(pages) == Stretch(Whole(q), k, Sum(limits))
            && (limits != [] ==> (Finished(pages) <==> |Whole(q)| <= k + Sum(limits)))
    decreases |limits|
  {
    hide Whole, ListProjects, PortfolioAt, Stretch, MayRead;
    SumAtLeastCount(limits);
    EmptyStretch(Whole(q), k);
    if limits != [] {
      SumAtLeastCount(limits[1..]);
      var page := ListProjects(q, limits[0], cursor);
      PageIsSlice(q, limits[0], cursor, k);
      hide ValidLimits;
      if page.value.next.Some? {
        var rest := Walk(q, limits[1..], page.value.next);
        WalkFrom(q, limits[1..], page.value.next, k + limits[0]);
        FirstPage(page, rest);
        TakeMore(Whole(q), k, limits[0], Sum(limits[1..]));
      } else {
        FirstPage(page, []);
        StretchToEnd(Whole(q), k, limits[0], Sum(limits));
      }
    }
  }

  /** Whatever page sizes a client asks for, its pages put together are the beginning of the portfolio:
      the diagnostic project first if it is shown, then every visible project once, newest first. It
      has seen all of it exactly when the last page has no cursor. */
  lemma WalkListsEverything(q: Query, limits: seq<int>)
    requires MayRead(q) && ValidLimits(limits) && limits != []
    ensures var pages := Walk(q, limits, None);
            && AllOk(pages) && Sum(limits) >= 0 && Items(pages) == Stretch(Whole(q), 0, Sum(limits))
            && (Finished(pages) <==> |Whole(q)| <= Sum(limits))
            && (|Whole(q)| <= |limits| ==> Finished(pages) && Items(pages) == Whole(q))
            && (q.diagnostic ==> Items(pages)[..1] == [Diagnostic])
            && forall i, j :: 0 <= i < j < |Items(pages)| ==> InOrder(Items(pages)[i], Items(pages)[j])
  {
    WalkFrom(q, limits, None, 0);
    SumAtLeastCount(limits);
    assert Whole(q)[0..] == Whole(q);
    WholeInOrder(q);
    hide Whole, Walk, InOrder;
  }

  /** The diagnostic project before all others, and those by the order of the columns. */
  ghost predicate InOrder(x: Item, y: Item) {
    y.Stored? && (x.Stored? ==>
      || x.project.updatedAt > y.project.updatedAt
      || (x.project.updatedAt == y.project.updatedAt && Precedes(y.project.id, x.project.id)))
  }

  lemma WholeInOrder(q: Query)
    requires Keyed(q)
    ensures forall i, j :: 0 <= i < j < |Whole(q)| ==> InOrder(Whole(q)[i], Whole(q)[j])
    ensures q.diagnostic ==> |Whole(q)| > 0 && Whole(q)[0] == Diagnostic
  {
    hide Listing, Sees, Keyed, Ascending, Distinct, ToSet, InOrder, Whole;
    ListingCorrect(q);
    WholePlaces(q);
    var d := if q.diagnostic then 1 else 0;
    forall i, j | 0 <= i < j < |Whole(q)| ensures InOrder(Whole(q)[i], Whole(q)[j]) {
      if i < d {
        DiagnosticFirst(Listing(q)[j - d]);
      } else {
        ListingInOrder(Listing(q), i - d, j - d);
      }
    }
  }

  lemma WholePlaces(q: Query)
    ensures var d := if q.diagnostic then 1 else 0;
            && |Whole(q)| == |Listing(q)| + d && (q.diagnostic ==> Whole(q)[0] == Diagnostic)
            && forall i :: d <= i < |Whole(q)| ==> Whole(q)[i] == Stored(Listing(q)[i - d])
  {
    hide Listing;
  }

  lemma DiagnosticFirst(p: Project)
    ensures InOrder(Diagnostic, Stored(p))
  {
  }

  lemma ListingInOrder(listing: seq<Project>, i: nat, j: nat)
    requires NewestFirst(listing) && i < j < |listing|
    ensures InOrder(Stored(listing[i]), Stored(listing[j]))
  {
  }

  lemma StoredItemsKeep(listing: seq<Project>)
    ensures forall p :: Stored(p) in StoredItems(listing) <==> p in listing
    ensures Diagnostic !in StoredItems(listing) && (Distinct(listing) ==> Distinct(StoredItems(listing)))
  {
    forall p | p in listing ensures Stored(p) in StoredItems(listing) {
      var i :| 0 <= i < |listing| && listing[i] == p;
      assert StoredItems(listing)[i] == Stored(p);
    }
  }

  /** Each project the caller may see stands once in the whole portfolio, as does the diagnostic project. */
  lemma WholeHasEachOnce(q: Query)
    requires Keyed(q)
    ensures Distinct(Whole(q)) && (Diagnostic in Whole(q) <==> q.diagnostic)
    ensures forall p :: Stored(p) in Whole(q) <==> p in q.projects && Sees(q, p) && q.wanted(p)
  {
    ListingCorrect(q);
    StoredItemsKeep(Listing(q));
    hide Listing, StoredItems, Keyed, Sees;
  }

  /** Which requests are refused, and how: a page size out of range before anything else, then an identity of the
      system, then a cursor of another query or of none; the cursor for the first database page means nothing
      unless the diagnostic project is shown. */
  lemma Refusals(q: Query, limit: int, cursor: Option<Cursor>)
    ensures var r := ListProjects(q, limit, cursor);
            && (r.LimitOutOfRange? <==> limit < 1 || limit > 100)
            && (r.SystemActor? <==> 1 <= limit <= 100 && M.SYSTEM in q.actor.roles)
            && (r.Ok? <==> && 1 <= limit <= 100 && M.SYSTEM !in q.actor.roles
                           && (cursor.None? || (cursor.value.Encoded? && cursor.value.scope == "projects")
                               || (cursor.value.DatabaseFirstPage? && q.diagnostic)))
  {
    hide Sort, Matching, After, Cut, StoredItems, ActorMask;
  }

  lemma HistoryChain(rows: seq<M.Membership>, project: string, principal: string)
    requires M.IsHistory(rows)
    ensures M.IsChain(M.ChainOf(rows, project, principal))
  {
  }

  lemma LinkMeets(chain: seq<M.Membership>, i: nat, actor: Actor)
    requires M.IsChain(chain) && i < |chain| && M.AreProjectRoles(actor.roles)
    ensures MasksMeet(chain[i], actor) <==> ToSet(chain[i].roles) * actor.roles != {}
  {
    hide M.MaskSum;
    assert M.IsLink(chain, i);
    M.MasksMeetIffRolesMeet(actor.roles, ToSet(chain[i].roles));
  }

  /** On a valid membership history a person sees a project exactly when their latest membership is active
      and shares a role with them. */
  lemma SeesByRoles(q: Query, p: Project)
    requires M.IsHistory(q.memberships) && M.AreProjectRoles(q.actor.roles)
    ensures var chain := M.ChainOf(q.memberships, p.id, q.actor.id);
            Sees(q, p) <==> && chain != [] && chain[|chain| - 1].active
                            && ToSet(chain[|chain| - 1].roles) * q.actor.roles != {}
                            && p.organization == q.actor.organization
  {
    hide MasksMeet, M.AreProjectRoles, M.ChainOf, M.Latest, M.IsChain, M.IsHistory, ToSet;
    var chain := M.ChainOf(q.memberships, p.id, q.actor.id);
    assert M.IsChain(chain) by { HistoryChain(q.memberships, p.id, q.actor.id); }
    M.LatestEndsChain(q.memberships, p.id, q.actor.id);
    if chain != [] {
      LinkMeets(chain, |chain| - 1, q.actor);
    }
  }
}
