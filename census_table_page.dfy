// The census table page (app/census-table/page.jsx): its filter state and the
// handlers that change it, the query string it sends to the list route, the
// "Showing X to Y" range, the page-number window and the Previous/Next
// buttons. Rendering is outside the model.

module CensusTablePage {
  import opened Wrappers
  import opened JsText
  import opened Census
  import CensusList

  /** The page's filter state; every filter starts at 'all' and the search at ''. */
  datatype Filters = Filters(
    desa: string,
    kelompok: string,
    gender: string,
    category: string,
    maritalStatus: string,
    search: string)

  const InitialFilters := Filters("all", "all", "all", "all", "all", "")

  datatype FilterKey = DesaKey | KelompokKey | GenderKey | CategoryKey | MaritalStatusKey | SearchKey

  function FilterValue(f: Filters, k: FilterKey): string {
    match k
    case DesaKey => f.desa
    case KelompokKey => f.kelompok
    case GenderKey => f.gender
    case CategoryKey => f.category
    case MaritalStatusKey => f.maritalStatus
    case SearchKey => f.search
  }

  /** The page state the handlers touch: the filters and the last pagination block. */
  datatype PageState = PageState(filters: Filters, pagination: CensusList.Pagination)

  /** `handleFilterChange(key, value)`: that one filter takes the value and the
      page goes back to 1; nothing else changes. */
  function HandleFilterChange(s: PageState, key: FilterKey, value: string): (t: PageState)
    ensures FilterValue(t.filters, key) == value
    ensures forall k :: k != key ==> FilterValue(t.filters, k) == FilterValue(s.filters, k)
    ensures t.pagination == s.pagination.(page := 1)
  {
    var f := s.filters;
    var g := match key
      case DesaKey => f.(desa := value)
      case KelompokKey => f.(kelompok := value)
      case GenderKey => f.(gender := value)
      case CategoryKey => f.(category := value)
      case MaritalStatusKey => f.(maritalStatus := value)
      case SearchKey => f.(search := value);
    PageState(g, s.pagination.(page := 1))
  }

  /** Clear Filters: every filter back to its initial value, pagination untouched. */
  function ClearFilters(s: PageState): (t: PageState)
    ensures forall k :: FilterValue(t.filters, k) == FilterValue(InitialFilters, k)
    ensures t.pagination == s.pagination
  {
    s.(filters := InitialFilters)
  }

  /** Changing a filter and then clearing gives the cleared filters on page 1,
      whatever the filter was set to. */
  lemma ChangeThenClear(s: PageState, key: FilterKey, value: string)
    ensures ClearFilters(HandleFilterChange(s, key, value)) == PageState(InitialFilters, s.pagination.(page := 1))
  {
  }

  // ------------------------------------------------------------ query string

  datatype Param = Param(key: string, value: string)

  /** `Number.prototype.toString` for an integer. */
  function IntText(i: int): (s: string)
    ensures i >= 0 ==> s == NatToString(i)
  {
    if i < 0 then "-" + NatToString(-i) else NatToString(i)
  }

  /** A filter value is sent when it is non-empty and not 'all'. */
  predicate Sent(v: string) {
    v != "" && v != "all"
  }

  function Optional(key: string, v: string): (ps: seq<Param>)
    ensures Sent(v) ==> ps == [Param(key, v)]
    ensures !Sent(v) ==> ps == []
  {
    if Sent(v) then [Param(key, v)] else []
  }

  /** Every parameter carries a value that is sent. */
  predicate AllSent(ps: seq<Param>) {
    forall i :: 0 <= i < |ps| ==> Sent(ps[i].value)
  }

  lemma AllSentAppend(a: seq<Param>, b: seq<Param>)
    requires AllSent(a) && AllSent(b)
    ensures AllSent(a + b)
  {
    forall i | 0 <= i < |a + b|
      ensures Sent((a + b)[i].value)
    {
      if i >= |a| {
        assert (a + b)[i] == b[i - |a|];
      }
    }
  }

  /** The filters appended after page and limit, in the state's key order. */
  function FilterParams(f: Filters): (ps: seq<Param>)
    ensures AllSent(ps)
  {
    var a := Optional("desa", f.desa) + Optional("kelompok", f.kelompok);
    AllSentAppend(Optional("desa", f.desa), Optional("kelompok", f.kelompok));
    var b := a + Optional("gender", f.gender);
    AllSentAppend(a, Optional("gender", f.gender));
    var c := b + Optional("category", f.category);
    AllSentAppend(b, Optional("category", f.category));
    var d := c + Optional("maritalStatus", f.maritalStatus);
    AllSentAppend(c, Optional("maritalStatus", f.maritalStatus));
    AllSentAppend(d, Optional("search", f.search));
    d + Optional("search", f.search)
  }

  /** loadData's `URLSearchParams`: page, limit, then the filters that are sent. */
  function QueryParams(pg: CensusList.Pagination, f: Filters): (ps: seq<Param>)
    ensures |ps| >= 2 && ps[0] == Param("page", IntText(pg.page)) && ps[1] == Param("limit", IntText(pg.limit))
    ensures forall i :: 2 <= i < |ps| ==> Sent(ps[i].value)
  {
    var head := [Param("page", IntText(pg.page)), Param("limit", IntText(pg.limit))];
    var rest := FilterParams(f);
    assert forall i :: 2 <= i < |head + rest| ==> (head + rest)[i] == rest[i - 2];
    head + rest
  }

  /** `searchParams.get(key)`: the first value under the key, or null. */
  function Get(ps: seq<Param>, key: string): (v: Option<string>)
    ensures v.Some? ==> exists i :: 0 <= i < |ps| && ps[i] == Param(key, v.value)
  {
    if ps == [] then None
    else if ps[0].key == key then Some(ps[0].value)
    else Get(ps[1..], key)
  }

  lemma {:induction false} GetAppend(a: seq<Param>, b: seq<Param>, key: string)
    ensures Get(a + b, key) == if Get(a, key).Some? then Get(a, key) else Get(b, key)
  {
    if a != [] {
      assert (a + b)[1..] == a[1..] + b;
      GetAppend(a[1..], b, key);
    } else {
      assert a + b == b;
    }
  }

  function SentOrNull(v: string): Option<string> {
    if Sent(v) then Some(v) else None
  }

  lemma GetOptional(k: string, v: string, key: string)
    ensures Get(Optional(k, v), key) == if k == key then SentOrNull(v) else None
  {
  }

  /** What the list route reads from the page's query string. */
  function ListQueryOf(ps: seq<Param>): CensusList.ListQuery {
    CensusList.ListQuery(Get(ps, "age"), Get(ps, "desa"), Get(ps, "kelompok"), Get(ps, "gender"),
      Get(ps, "category"), Get(ps, "maritalStatus"), Get(ps, "search"), Get(ps, "page"), Get(ps, "limit"))
  }

  /** The value the query string carries under a key, when the page sends it. */
  function Expected(f: Filters, key: string): Option<string> {
    if key == "desa" then SentOrNull(f.desa)
    else if key == "kelompok" then SentOrNull(f.kelompok)
    else if key == "gender" then SentOrNull(f.gender)
    else if key == "category" then SentOrNull(f.category)
    else if key == "maritalStatus" then SentOrNull(f.maritalStatus)
    else if key == "search" then SentOrNull(f.search)
    else None
  }

  lemma FilterParamsRead(f: Filters, key: string)
    ensures Get(FilterParams(f), key) == Expected(f, key)
  {
    var d, k, g, c, m, s := Optional("desa", f.desa), Optional("kelompok", f.kelompok), Optional("gender", f.gender),
      Optional("category", f.category), Optional("maritalStatus", f.maritalStatus), Optional("search", f.search);
    GetAppend(d + k + g + c + m, s, key);
    GetAppend(d + k + g + c, m, key);
    GetAppend(d + k + g, c, key);
    GetAppend(d + k, g, key);
    GetAppend(d, k, key);
    GetOptional("desa", f.desa, key);
    GetOptional("kelompok", f.kelompok, key);
    GetOptional("gender", f.gender, key);
    GetOptional("category", f.category, key);
    GetOptional("maritalStatus", f.maritalStatus, key);
    GetOptional("search", f.search, key);
  }

  lemma QueryParamsRead(pg: CensusList.Pagination, f: Filters, key: string)
    requires key != "page" && key != "limit"
    ensures Get(QueryParams(pg, f), key) == Expected(f, key)
  {
    GetAppend([Param("page", IntText(pg.page)), Param("limit", IntText(pg.limit))], FilterParams(f), key);
    FilterParamsRead(f, key);
  }

  /** The list route reads back the page's page, limit and every sent filter, and
      no age. */
  lemma QueryReadsBack(pg: CensusList.Pagination, f: Filters)
    ensures var q := ListQueryOf(QueryParams(pg, f));
            && q.page == Some(IntText(pg.page)) && q.limit == Some(IntText(pg.limit))
            && q.age == None
            && q.desa == SentOrNull(f.desa) && q.kelompok == SentOrNull(f.kelompok)
            && q.gender == SentOrNull(f.gender) && q.category == SentOrNull(f.category)
            && q.maritalStatus == SentOrNull(f.maritalStatus) && q.search == SentOrNull(f.search)
  {
    var ps := QueryParams(pg, f);
    assert |"page"| != |"limit"|;
    assert Get(ps, "limit") == Get(ps[1..], "limit");
    assert ps[1..][0] == Param("limit", IntText(pg.limit));
    QueryParamsRead(pg, f, "age");
    QueryParamsRead(pg, f, "desa");
    QueryParamsRead(pg, f, "kelompok");
    QueryParamsRead(pg, f, "gender");
    QueryParamsRead(pg, f, "category");
    QueryParamsRead(pg, f, "maritalStatus");
    QueryParamsRead(pg, f, "search");
  }

  /** End to end: the list route filters by exactly the filters the page shows
      as set, and serves the page and limit the page asked for. */
  lemma PageQueryMeaning(pg: CensusList.Pagination, f: Filters, w: Where, r: Record, total: nat)
    requires pg.page >= 1 && pg.limit >= 1
    requires CensusList.IsListWhere(w, ListQueryOf(QueryParams(pg, f)))
    ensures Matches(w, r) <==>
      && (Sent(f.desa) ==> r.desa == Some(f.desa))
      && (Sent(f.kelompok) ==> r.kelompok == Some(f.kelompok))
      && (Sent(f.gender) ==> r.jenisKelamin == Some(f.gender))
      && (Sent(f.category) ==> r.kategori == Some(f.category))
      && (Sent(f.maritalStatus) ==> r.statusPernikahan == Some(f.maritalStatus))
      && (Sent(f.search) ==> ContainsInsensitive(r.nama, f.search) || ContainsInsensitive(r.tempatLahir, f.search))
    ensures var served := CensusList.ListPagination(ListQueryOf(QueryParams(pg, f)), total);
            served.page == pg.page && served.limit == pg.limit
  {
    var q := ListQueryOf(QueryParams(pg, f));
    QueryReadsBack(pg, f);
    CensusList.ListWhereMeaning(w, q, r);
    PageParamDecimal(pg.page, 1);
    PageParamDecimal(pg.limit, CensusList.DefaultLimit);
  }

  // ------------------------------------------------------------ range and window

  /** "Showing from to to of total": from (page − 1)·limit + 1 to min(page·limit, total). */
  function ShowingFrom(pg: CensusList.Pagination): (n: int)
    ensures pg.page >= 1 && pg.limit >= 0 ==> n >= 1
  {
    Skip(pg.page, pg.limit) + 1
  }

  function ShowingTo(pg: CensusList.Pagination): (n: int)
    ensures n <= pg.total
    ensures n - ShowingFrom(pg) < pg.limit
  {
    assert pg.page * pg.limit == Skip(pg.page, pg.limit) + pg.limit;
    Min(pg.page * pg.limit, pg.total)
  }

  /** On a page that holds records the range counts exactly the rows the list
      route returns for it; with no records it reads "1 to 0". */
  lemma ShowingMatchesRows(selected: seq<Record>, pg: CensusList.Pagination)
    requires pg.total == |selected| && pg.page >= 1 && pg.limit > 0
    ensures var rows := CensusList.ListData(selected, pg).value;
            (rows != [] ==> ShowingTo(pg) - ShowingFrom(pg) + 1 == |rows|)
            && (rows == [] ==> ShowingTo(pg) < ShowingFrom(pg))
  {
  }

  /** Entry i of the page-number window, by the page's if/else chain. */
  function PageNumber(page: int, totalPages: int, i: int): (n: int)
    ensures 1 <= page <= totalPages && 0 <= i < 5 && i < totalPages ==> 1 <= n <= totalPages
  {
    if totalPages <= 5 then i + 1
    else if page <= 3 then i + 1
    else if page >= totalPages - 2 then totalPages - 4 + i
    else page - 2 + i
  }

  /** `Array.from({ length: Math.min(5, totalPages) }, …)`: a negative length is empty. */
  function PageWindow(page: int, totalPages: int): (w: seq<int>)
    ensures |w| == if totalPages < 0 then 0 else Min(5, totalPages)
    ensures forall i :: 0 <= i < |w| ==> w[i] == PageNumber(page, totalPages, i)
  {
    var n := if totalPages < 0 then 0 else Min(5, totalPages);
    seq(n, i => PageNumber(page, totalPages, i))
  }

  /** The window is a run of consecutive page numbers inside 1..totalPages, and it
      shows the current page whenever that page exists. */
  lemma PageWindowFacts(page: int, totalPages: int)
    ensures var w := PageWindow(page, totalPages);
            && (forall i :: 0 <= i < |w| - 1 ==> w[i + 1] == w[i] + 1)
            && (forall i :: 0 <= i < |w| ==> 1 <= w[i] <= totalPages)
            && (1 <= page <= totalPages ==> page in w)
  {
    var w := PageWindow(page, totalPages);
    if 1 <= page <= totalPages {
      var i := page - PageNumber(page, totalPages, 0);
      assert 0 <= i < |w| && w[i] == page;
    }
  }

  /** Previous is enabled off page 1, Next off the last page. */
  function Previous(pg: CensusList.Pagination): (p: Option<int>)
    ensures p.None? <==> pg.page == 1
    ensures p.Some? ==> p.value < pg.page
  {
    if pg.page == 1 then None else Some(pg.page - 1)
  }

  function Next(pg: CensusList.Pagination): (p: Option<int>)
    ensures p.None? <==> pg.page == pg.totalPages
    ensures p.Some? ==> p.value > pg.page
  {
    if pg.page == pg.totalPages then None else Some(pg.page + 1)
  }

  /** From a page inside 1..totalPages, the enabled buttons stay inside it. */
  lemma ButtonsStayInRange(pg: CensusList.Pagination)
    requires 1 <= pg.page <= pg.totalPages
    ensures Previous(pg).Some? ==> 1 <= Previous(pg).value <= pg.totalPages
    ensures Next(pg).Some? ==> 1 <= Next(pg).value <= pg.totalPages
  {
  }
}
