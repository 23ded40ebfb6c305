// The census details route (app/api/census/details/route.js): the `where`
// built from three location filters, seven attribute filters and an optional
// age range, and the page/limit parameters of its pagination block. The
// table is given in the query's order (`nama` ascending).

module CensusDetails {
  import opened Wrappers
  import opened JsText
  import opened Census
  import CensusList
  import TimPnkb

  /** The URL search parameters the route reads; `None` is an absent parameter. */
  datatype DetailsQuery = DetailsQuery(
    desa: Option<string>,
    kelompok: Option<string>,
    sheet: Option<string>,
    jenisKelamin: Option<string>,
    kategori: Option<string>,
    kategoriUsia: Option<string>,
    statusPernikahan: Option<string>,
    pendidikan: Option<string>,
    golonganDarah: Option<string>,
    kemubalighan: Option<string>,
    minAge: Option<string>,
    maxAge: Option<string>,
    page: Option<string>,
    limit: Option<string>)

  const DefaultLimit: int := 100

  /** A bound given as a truthy parameter, parsed; otherwise no bound. */
  function Bound(p: Option<string>): (b: Option<ParsedInt>)
    ensures b.Some? <==> Truthy(p)
    ensures b.Some? ==> b.value == ParseInt(p.value)
  {
    if Truthy(p) then Some(ParseInt(p.value)) else None
  }

  /** The route's `where`: location filters when active (not 'all'), attribute
      filters whenever non-empty, and an age range when either bound is given. */
  predicate IsDetailsWhere(w: Where, q: DetailsQuery) {
    && w.search.None?
    && FilterEntry(w.fields, Desa, q.desa)
    && FilterEntry(w.fields, Kelompok, q.kelompok)
    && FilterEntry(w.fields, Sheet, q.sheet)
    && AttributeEntry(w.fields, JenisKelamin, q.jenisKelamin)
    && AttributeEntry(w.fields, Kategori, q.kategori)
    && AttributeEntry(w.fields, KategoriUsia, q.kategoriUsia)
    && AttributeEntry(w.fields, StatusPernikahan, q.statusPernikahan)
    && AttributeEntry(w.fields, Pendidikan, q.pendidikan)
    && AttributeEntry(w.fields, GolonganDarah, q.golonganDarah)
    && AttributeEntry(w.fields, Kemubalighan, q.kemubalighan)
    && w.age == (if Truthy(q.minAge) || Truthy(q.maxAge) then AgeBetween(Bound(q.minAge), Bound(q.maxAge)) else AnyAge)
  }

  /** The location part, written as the route writes it. */
  method LocationFields(q: DetailsQuery) returns (fields: map<Field, string>)
    ensures fields.Keys <= {Desa, Kelompok, Sheet}
    ensures FilterEntry(fields, Desa, q.desa)
    ensures FilterEntry(fields, Kelompok, q.kelompok)
    ensures FilterEntry(fields, Sheet, q.sheet)
  {
    fields := map[];
    if ActiveFilter(q.desa) {
      fields := fields[Desa := q.desa.value];
    }
    if ActiveFilter(q.kelompok) {
      fields := fields[Kelompok := q.kelompok.value];
    }
    if ActiveFilter(q.sheet) {
      fields := fields[Sheet := q.sheet.value];
    }
  }

  /** One attribute filter: written when its parameter is non-empty, 'all' included;
      every other entry is kept. */
  method SetAttribute(fields: map<Field, string>, f: Field, p: Option<string>) returns (r: map<Field, string>)
    requires f !in fields
    ensures AttributeEntry(r, f, p)
    ensures r == if Truthy(p) then fields[f := p.value] else fields
  {
    r := fields;
    if Truthy(p) {
      r := r[f := p.value];
    }
  }

  /** The four personal attribute filters, each written when its parameter is non-empty. */
  method PersonalFields(q: DetailsQuery) returns (fields: map<Field, string>)
    ensures fields.Keys <= {JenisKelamin, Kategori, KategoriUsia, StatusPernikahan}
    ensures AttributeEntry(fields, JenisKelamin, q.jenisKelamin)
    ensures AttributeEntry(fields, Kategori, q.kategori)
    ensures AttributeEntry(fields, KategoriUsia, q.kategoriUsia)
    ensures AttributeEntry(fields, StatusPernikahan, q.statusPernikahan)
  {
    fields := SetAttribute(map[], JenisKelamin, q.jenisKelamin);
    fields := SetAttribute(fields, Kategori, q.kategori);
    assert AttributeEntry(fields, JenisKelamin, q.jenisKelamin);
    fields := SetAttribute(fields, KategoriUsia, q.kategoriUsia);
    assert AttributeEntry(fields, JenisKelamin, q.jenisKelamin) && AttributeEntry(fields, Kategori, q.kategori);
    fields := SetAttribute(fields, StatusPernikahan, q.statusPernikahan);
  }

  /** The education, blood-group and kemubalighan filters, each written when non-empty. */
  method BackgroundFields(q: DetailsQuery) returns (fields: map<Field, string>)
    ensures fields.Keys <= {Pendidikan, GolonganDarah, Kemubalighan}
    ensures AttributeEntry(fields, Pendidikan, q.pendidikan)
    ensures AttributeEntry(fields, GolonganDarah, q.golonganDarah)
    ensures AttributeEntry(fields, Kemubalighan, q.kemubalighan)
  {
    fields := SetAttribute(map[], Pendidikan, q.pendidikan);
    fields := SetAttribute(fields, GolonganDarah, q.golonganDarah);
    fields := SetAttribute(fields, Kemubalighan, q.kemubalighan);
  }

  /** `where.usiaSekarang`: an object holding gte and lte for the bounds given,
      present only when at least one is given. */
  method AgeRange(q: DetailsQuery) returns (age: AgeConstraint)
    ensures age == (if Truthy(q.minAge) || Truthy(q.maxAge) then AgeBetween(Bound(q.minAge), Bound(q.maxAge)) else AnyAge)
  {
    age := AnyAge;
    if Truthy(q.minAge) || Truthy(q.maxAge) {
      var gte: Option<ParsedInt> := None;
      var lte: Option<ParsedInt> := None;
      if Truthy(q.minAge) {
        gte := Some(ParseInt(q.minAge.value));
      }
      if Truthy(q.maxAge) {
        lte := Some(ParseInt(q.maxAge.value));
      }
      age := AgeBetween(gte, lte);
    }
  }

  predicate LocationKeys(m: map<Field, string>) {
    m.Keys <= {Desa, Kelompok, Sheet}
  }

  predicate PersonalKeys(m: map<Field, string>) {
    m.Keys <= {JenisKelamin, Kategori, KategoriUsia, StatusPernikahan}
  }

  predicate BackgroundKeys(m: map<Field, string>) {
    m.Keys <= {Pendidikan, GolonganDarah, Kemubalighan}
  }

  lemma LocationPart(loc: map<Field, string>, personal: map<Field, string>, background: map<Field, string>, q: DetailsQuery)
    requires LocationKeys(loc) && PersonalKeys(personal) && BackgroundKeys(background)
    requires FilterEntry(loc, Desa, q.desa) && FilterEntry(loc, Kelompok, q.kelompok) && FilterEntry(loc, Sheet, q.sheet)
    ensures var fields := loc + personal + background;
            FilterEntry(fields, Desa, q.desa) && FilterEntry(fields, Kelompok, q.kelompok) && FilterEntry(fields, Sheet, q.sheet)
  {
  }

  lemma PersonalPart(loc: map<Field, string>, personal: map<Field, string>, background: map<Field, string>, q: DetailsQuery)
    requires LocationKeys(loc) && PersonalKeys(personal) && BackgroundKeys(background)
    requires AttributeEntry(personal, JenisKelamin, q.jenisKelamin) && AttributeEntry(personal, Kategori, q.kategori)
    requires AttributeEntry(personal, KategoriUsia, q.kategoriUsia) && AttributeEntry(personal, StatusPernikahan, q.statusPernikahan)
    ensures var fields := loc + personal + background;
            && AttributeEntry(fields, JenisKelamin, q.jenisKelamin) && AttributeEntry(fields, Kategori, q.kategori)
            && AttributeEntry(fields, KategoriUsia, q.kategoriUsia) && AttributeEntry(fields, StatusPernikahan, q.statusPernikahan)
  {
  }

  lemma BackgroundPart(loc: map<Field, string>, personal: map<Field, string>, background: map<Field, string>, q: DetailsQuery)
    requires LocationKeys(loc) && PersonalKeys(personal) && BackgroundKeys(background)
    requires AttributeEntry(background, Pendidikan, q.pendidikan) && AttributeEntry(background, GolonganDarah, q.golonganDarah)
    requires AttributeEntry(background, Kemubalighan, q.kemubalighan)
    ensures var fields := loc + personal + background;
            && AttributeEntry(fields, Pendidikan, q.pendidikan) && AttributeEntry(fields, GolonganDarah, q.golonganDarah)
            && AttributeEntry(fields, Kemubalighan, q.kemubalighan)
  {
  }

  /** Builds the `where` by conditional writes, in the route's order. */
  method BuildWhere(q: DetailsQuery) returns (w: Where)
    ensures IsDetailsWhere(w, q)
  {
    var loc := LocationFields(q);
    var personal := PersonalFields(q);
    var background := BackgroundFields(q);
    var fields := loc + personal + background;
    LocationPart(loc, personal, background, q);
    PersonalPart(loc, personal, background, q);
    BackgroundPart(loc, personal, background, q);
    var age := AgeRange(q);
    w := Where(fields, age, None);
  }

  /** The age part of the `where`: with neither bound every record passes; with a
      bound, only records with an age that meets each given bound (a NaN bound
      passes nothing). */
  lemma DetailsAgeMeaning(w: Where, q: DetailsQuery, age: Option<int>)
    requires IsDetailsWhere(w, q)
    ensures !Truthy(q.minAge) && !Truthy(q.maxAge) ==> AgeMatches(w.age, age)
    ensures Truthy(q.minAge) || Truthy(q.maxAge) ==>
      (AgeMatches(w.age, age) <==>
        && age.Some?
        && (Truthy(q.minAge) ==> ParseInt(q.minAge.value).Int? && age.value >= ParseInt(q.minAge.value).value)
        && (Truthy(q.maxAge) ==> ParseInt(q.maxAge.value).Int? && age.value <= ParseInt(q.maxAge.value).value))
  {
  }

  /** An attribute parameter set to 'all' is a real equality filter: it selects
      only records whose column is the text 'all' (unlike the location filters). */
  lemma AttributeAllIsLiteral(w: Where, q: DetailsQuery, r: Record)
    requires IsDetailsWhere(w, q)
    requires q.pendidikan == Some("all")
    ensures Matches(w, r) ==> r.pendidikan == Some("all")
  {
    assert Pendidikan in w.fields;
  }

  /** The Tim PNKB drill-down, whose minAge and maxAge are the decimal texts of
      that route's bounds, selects the same age window: 21..35 inclusive. */
  lemma MarriageAgeDrillDown(w: Where, q: DetailsQuery, age: Option<int>)
    requires IsDetailsWhere(w, q)
    requires q.minAge == Some(NatToString(TimPnkb.MinAge)) && q.maxAge == Some(NatToString(TimPnkb.MaxAge))
    ensures AgeMatches(w.age, age) <==> age.Some? && TimPnkb.MinAge <= age.value <= TimPnkb.MaxAge
  {
    ParseIntOfNat(TimPnkb.MinAge);
    ParseIntOfNat(TimPnkb.MaxAge);
  }

  /** The response's pagination block: page defaults to 1, limit to 100. */
  function DetailsPagination(q: DetailsQuery, total: nat): (pg: CensusList.Pagination)
    ensures pg.total == total
    ensures q.page.None? ==> pg.page == 1
    ensures q.limit.None? ==> pg.limit == DefaultLimit
    ensures pg.page == PageParam(q.page, 1) && pg.limit == PageParam(q.limit, DefaultLimit)
    ensures pg.page != 0 && pg.limit != 0
    ensures pg.limit > 0 ==> PagesHold(pg.totalPages, pg.limit, total)
  {
    CensusList.Paginate(PageParam(q.page, 1), PageParam(q.limit, DefaultLimit), total)
  }
}
