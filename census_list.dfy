// The census list route (app/api/census/list/route.js): the `where` built from
// the age, location, gender, category, marital-status and search parameters,
// the page/limit parameters and the pagination block, and the distinct
// filter-option values. The table is given in the query's order
// (`createdAt` descending); the database itself is outside the model.

module CensusList {
  import opened Wrappers
  import opened JsText
  import opened Census

  /** The URL search parameters the route reads; `None` is an absent parameter. */
  datatype ListQuery = ListQuery(
    age: Option<string>,
    desa: Option<string>,
    kelompok: Option<string>,
    gender: Option<string>,
    category: Option<string>,
    maritalStatus: Option<string>,
    search: Option<string>,
    page: Option<string>,
    limit: Option<string>)

  const DefaultLimit: int := 50

  /** The route's `where`: an age equality when `age` is truthy, each of the five
      equality filters when active, and the name/birthplace search when truthy. */
  predicate IsListWhere(w: Where, q: ListQuery) {
    && w.fields.Keys <= {Desa, Kelompok, JenisKelamin, Kategori, StatusPernikahan}
    && FilterEntry(w.fields, Desa, q.desa)
    && FilterEntry(w.fields, Kelompok, q.kelompok)
    && FilterEntry(w.fields, JenisKelamin, q.gender)
    && FilterEntry(w.fields, Kategori, q.category)
    && FilterEntry(w.fields, StatusPernikahan, q.maritalStatus)
    && w.age == (if Truthy(q.age) then AgeEquals(ParseInt(q.age.value)) else AnyAge)
    && w.search == (if Truthy(q.search) then q.search else None)
  }

  /** The two location filters, each written when active. */
  method LocationFilters(q: ListQuery) returns (fields: map<Field, string>)
    ensures fields.Keys <= {Desa, Kelompok}
    ensures FilterEntry(fields, Desa, q.desa) && FilterEntry(fields, Kelompok, q.kelompok)
  {
    fields := SetFilter(map[], Desa, q.desa);
    fields := SetFilter(fields, Kelompok, q.kelompok);
  }

  /** The gender, category and marital-status filters, each written when active. */
  method PersonFilters(q: ListQuery) returns (fields: map<Field, string>)
    ensures fields.Keys <= {JenisKelamin, Kategori, StatusPernikahan}
    ensures FilterEntry(fields, JenisKelamin, q.gender) && FilterEntry(fields, Kategori, q.category)
    ensures FilterEntry(fields, StatusPernikahan, q.maritalStatus)
  {
    fields := SetFilter(map[], JenisKelamin, q.gender);
    fields := SetFilter(fields, Kategori, q.category);
    fields := SetFilter(fields, StatusPernikahan, q.maritalStatus);
  }

  /** The filters of the two parts survive their union, whose keys are disjoint. */
  lemma FilterUnion(loc: map<Field, string>, person: map<Field, string>, q: ListQuery)
    requires loc.Keys <= {Desa, Kelompok} && person.Keys <= {JenisKelamin, Kategori, StatusPernikahan}
    requires FilterEntry(loc, Desa, q.desa) && FilterEntry(loc, Kelompok, q.kelompok)
    requires FilterEntry(person, JenisKelamin, q.gender) && FilterEntry(person, Kategori, q.category)
    requires FilterEntry(person, StatusPernikahan, q.maritalStatus)
    ensures var fields := loc + person;
            && fields.Keys <= {Desa, Kelompok, JenisKelamin, Kategori, StatusPernikahan}
            && FilterEntry(fields, Desa, q.desa) && FilterEntry(fields, Kelompok, q.kelompok)
            && FilterEntry(fields, JenisKelamin, q.gender) && FilterEntry(fields, Kategori, q.category)
            && FilterEntry(fields, StatusPernikahan, q.maritalStatus)
  {
  }

  /** Builds the `where` by conditional writes, in the route's order. */
  method BuildWhere(q: ListQuery) returns (w: Where)
    ensures IsListWhere(w, q)
  {
    var loc := LocationFilters(q);
    var person := PersonFilters(q);
    FilterUnion(loc, person, q);
    var fields := loc + person;
    var age := if Truthy(q.age) then AgeEquals(ParseInt(q.age.value)) else AnyAge;
    var search := if Truthy(q.search) then q.search else None;
    w := Where(fields, age, search);
  }

  /** What the `where` selects: records whose age equals the parsed `age` (none
      when it does not parse), that agree with every active filter, and whose name
      or birthplace contains the search text, ignoring case. */
  lemma ListWhereMeaning(w: Where, q: ListQuery, r: Record)
    requires IsListWhere(w, q)
    ensures Matches(w, r) <==>
      && (Truthy(q.age) ==> ParseInt(q.age.value).Int? && r.usiaSekarang == Some(ParseInt(q.age.value).value))
      && (ActiveFilter(q.desa) ==> r.desa == q.desa)
      && (ActiveFilter(q.kelompok) ==> r.kelompok == q.kelompok)
      && (ActiveFilter(q.gender) ==> r.jenisKelamin == q.gender)
      && (ActiveFilter(q.category) ==> r.kategori == q.category)
      && (ActiveFilter(q.maritalStatus) ==> r.statusPernikahan == q.maritalStatus)
      && (Truthy(q.search) ==> ContainsInsensitive(r.nama, q.search.value) || ContainsInsensitive(r.tempatLahir, q.search.value))
  {
    if ActiveFilter(q.desa) && ActiveFilter(q.kelompok) && ActiveFilter(q.gender)
       && ActiveFilter(q.category) && ActiveFilter(q.maritalStatus) {
      assert Desa in w.fields && Kelompok in w.fields && JenisKelamin in w.fields;
      assert Kategori in w.fields && StatusPernikahan in w.fields;
    }
  }

  /** Without parameters, and with every filter set to 'all', the list is unfiltered. */
  lemma UnfilteredList(w: Where, q: ListQuery, table: seq<Record>)
    requires IsListWhere(w, q)
    requires q.age.None? && q.search.None?
    requires q.desa in {None, Some("all")} && q.kelompok in {None, Some("all")}
    requires q.gender in {None, Some("all")} && q.category in {None, Some("all")}
    requires q.maritalStatus in {None, Some("all")}
    ensures Select(table, w) == table
  {
    assert w.fields == map[];
    assert w == NoFilter;
    SelectAll(table);
  }

  // ------------------------------------------------------------ pagination

  datatype Pagination = Pagination(page: int, limit: int, total: nat, totalPages: int)

  /** The response's pagination block for `total` matching records: page defaults
      to 1 and limit to 50, and for a positive limit totalPages is the least page
      count whose pages hold every record. */
  function ListPagination(q: ListQuery, total: nat): (pg: Pagination)
    ensures pg.total == total
    ensures q.page.None? ==> pg.page == 1
    ensures q.limit.None? ==> pg.limit == DefaultLimit
    ensures pg.page == PageParam(q.page, 1) && pg.limit == PageParam(q.limit, DefaultLimit)
    ensures pg.page != 0 && pg.limit != 0
    ensures pg.limit > 0 ==> PagesHold(pg.totalPages, pg.limit, total)
  {
    var page := PageParam(q.page, 1);
    var limit := PageParam(q.limit, DefaultLimit);
    Paginate(page, limit, total)
  }

  /** The pagination block for a parsed page and a non-zero parsed limit. */
  function Paginate(page: int, limit: int, total: nat): (pg: Pagination)
    requires limit != 0
    ensures pg.page == page && pg.limit == limit && pg.total == total
    ensures limit > 0 ==> PagesHold(pg.totalPages, limit, total)
  {
    Pagination(page, limit, total, TotalPages(total, limit))
  }

  /** The rows returned for the selected records, in query order: the page's slice
      when page and limit are positive (`None` marks the negative skip or take that
      the model does not follow). */
  function ListData(selected: seq<Record>, pg: Pagination): (data: Option<seq<Record>>)
    ensures data.Some? <==> pg.page >= 1 && pg.limit > 0
    ensures data.Some? ==> |data.value| <= pg.limit
    ensures data.Some? ==> |data.value| == Min(pg.limit, if |selected| > Skip(pg.page, pg.limit) then |selected| - Skip(pg.page, pg.limit) else 0)
    ensures data.Some? ==> forall i :: 0 <= i < |data.value| ==>
              Skip(pg.page, pg.limit) + i < |selected| && data.value[i] == selected[Skip(pg.page, pg.limit) + i]
  {
    if pg.page >= 1 && pg.limit > 0 then Some(PageSlice(selected, pg.page, pg.limit)) else None
  }

  /** A listing with positive page and limit returns rows exactly on the pages
      1..totalPages of the pagination block it reports. */
  lemma ListPagesAgree(table: seq<Record>, w: Where, q: ListQuery)
    requires var pg := ListPagination(q, |Select(table, w)|); pg.page >= 1 && pg.limit > 0
    ensures var selected := Select(table, w);
            var pg := ListPagination(q, |selected|);
            ListData(selected, pg).value != [] <==> pg.page <= pg.totalPages
  {
    var selected := Select(table, w);
    var pg := ListPagination(q, |selected|);
    PageSliceNonEmpty(selected, pg.page, pg.limit);
  }

  // --------------------------------------------------------- filter options

  /** `groupBy({ by: [f], where: { f: { not: null } } }).map(item => item.f)`: the
      distinct non-null values of a column, in first-occurrence order. */
  function FilterOptions(table: seq<Record>, f: Field): (vs: seq<string>)
    ensures forall i, j :: 0 <= i < j < |vs| ==> vs[i] != vs[j]
    ensures forall v :: v in vs <==> exists i :: 0 <= i < |table| && FieldOf(table[i], f) == Some(v)
  {
    if table == [] then []
    else
      var init := table[..|table| - 1];
      var prior := FilterOptions(init, f);
      var last := FieldOf(table[|table| - 1], f);
      assert forall i :: 0 <= i < |init| ==> init[i] == table[i];
      if last.Some? && last.value !in prior then prior + [last.value] else prior
  }
}
