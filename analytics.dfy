// The census analytics route (app/api/census/analytics/route.js): the
// location `where`, the raw-SQL condition and placeholder builder for the age
// distribution, the age-bucket CASE rule, and the mapping and ordering of the
// grouped counts. The grouped counts themselves are inputs: each is the list
// Prisma's groupBy returns, in its order.

module Analytics {
  import opened Wrappers
  import opened JsText
  import opened Census
  import opened Entries
  import opened Sorting

  // ----------------------------------------------------------------- where

  predicate IsLocationWhere(w: Where, desa: Option<string>, kelompok: Option<string>, sheet: Option<string>) {
    && w.age == AnyAge && w.search.None?
    && w.fields.Keys <= {Desa, Kelompok, Sheet}
    && FilterEntry(w.fields, Desa, desa)
    && FilterEntry(w.fields, Kelompok, kelompok)
    && FilterEntry(w.fields, Sheet, sheet)
  }

  /** The `where` of every grouped query: each location filter present and not 'all'. */
  method BuildWhere(desa: Option<string>, kelompok: Option<string>, sheet: Option<string>) returns (w: Where)
    ensures IsLocationWhere(w, desa, kelompok, sheet)
  {
    w := NoFilter;
    if ActiveFilter(desa) {
      w := w.(fields := w.fields[Desa := desa.value]);
    }
    if ActiveFilter(kelompok) {
      w := w.(fields := w.fields[Kelompok := kelompok.value]);
    }
    if ActiveFilter(sheet) {
      w := w.(fields := w.fields[Sheet := sheet.value]);
    }
  }

  /** With no active filter the `where` selects every record; otherwise exactly the
      records agreeing with each active filter. */
  lemma LocationWhereMeaning(w: Where, desa: Option<string>, kelompok: Option<string>, sheet: Option<string>, r: Record)
    requires IsLocationWhere(w, desa, kelompok, sheet)
    ensures Matches(w, r) <==>
      && (ActiveFilter(desa) ==> r.desa == desa)
      && (ActiveFilter(kelompok) ==> r.kelompok == kelompok)
      && (ActiveFilter(sheet) ==> r.sheet == sheet)
  {
    if ActiveFilter(desa) && ActiveFilter(kelompok) && ActiveFilter(sheet) {
      assert Desa in w.fields && Kelompok in w.fields && Sheet in w.fields;
    }
  }

  // ------------------------------------------------------ raw SQL builder

  function Column(f: Field): string {
    match f
    case Desa => "desa"
    case Kelompok => "kelompok"
    case Sheet => "sheet"
    case JenisKelamin => "jenis_kelamin"
    case Kategori => "kategori"
    case KategoriUsia => "kategori_usia"
    case StatusPernikahan => "status_pernikahan"
    case Pendidikan => "pendidikan"
    case GolonganDarah => "golongan_darah"
    case Kemubalighan => "kemubalighan"
  }

  /** The location fields the `where` sets, in the order desa, kelompok, sheet. */
  function PresentFields(w: Where): (fs: seq<Field>)
    ensures forall i :: 0 <= i < |fs| ==> fs[i] in w.fields && fs[i] in {Desa, Kelompok, Sheet}
    ensures forall f :: f in {Desa, Kelompok, Sheet} && f in w.fields ==> f in fs
    ensures forall i, j :: 0 <= i < j < |fs| ==> Rank(fs[i]) < Rank(fs[j])
  {
    (if Desa in w.fields then [Desa] else []) +
    (if Kelompok in w.fields then [Kelompok] else []) +
    (if Sheet in w.fields then [Sheet] else [])
  }

  function Rank(f: Field): int {
    match f
    case Desa => 0
    case Kelompok => 1
    case Sheet => 2
    case _ => 3
  }

  /** The i-th condition (0-based) of the age query. */
  function Condition(f: Field, i: nat): string {
    Column(f) + " = $" + NatToString(i + 1)
  }

  /** conditions and params hold, position by position, the condition and the value
      of each field in `pushed`. */
  predicate Built(conditions: seq<string>, params: seq<string>, pushed: seq<Field>, w: Where) {
    && |conditions| == |params| == |pushed|
    && forall i :: 0 <= i < |pushed| ==>
         pushed[i] in w.fields && conditions[i] == Condition(pushed[i], i) && params[i] == w.fields[pushed[i]]
  }

  lemma PushKeepsBuilt(conditions: seq<string>, params: seq<string>, pushed: seq<Field>, w: Where, f: Field)
    requires Built(conditions, params, pushed, w) && f in w.fields
    ensures Built(conditions + [Condition(f, |params|)], params + [w.fields[f]], pushed + [f], w)
  {
  }

  /** The conditions/params builder: one `column = $n` per set location field, n
      counting from 1 in push order, and params[n - 1] holding that field's value. */
  method BuildAgeQuery(w: Where) returns (conditions: seq<string>, params: seq<string>)
    ensures |conditions| == |params| == |PresentFields(w)|
    ensures forall i :: 0 <= i < |conditions| ==>
      conditions[i] == Condition(PresentFields(w)[i], i) && params[i] == w.fields[PresentFields(w)[i]]
  {
    conditions, params := [], [];
    ghost var pushed: seq<Field> := [];
    if Desa in w.fields {
      PushKeepsBuilt(conditions, params, pushed, w, Desa);
      conditions := conditions + [Condition(Desa, |params|)];
      params := params + [w.fields[Desa]];
      pushed := pushed + [Desa];
    }
    assert pushed == (if Desa in w.fields then [Desa] else []);
    if Kelompok in w.fields {
      PushKeepsBuilt(conditions, params, pushed, w, Kelompok);
      conditions := conditions + [Condition(Kelompok, |params|)];
      params := params + [w.fields[Kelompok]];
      pushed := pushed + [Kelompok];
    }
    assert pushed == (if Desa in w.fields then [Desa] else []) + (if Kelompok in w.fields then [Kelompok] else []);
    if Sheet in w.fields {
      PushKeepsBuilt(conditions, params, pushed, w, Sheet);
      conditions := conditions + [Condition(Sheet, |params|)];
      params := params + [w.fields[Sheet]];
      pushed := pushed + [Sheet];
    }
    assert pushed == PresentFields(w);
    assert Built(conditions, params, PresentFields(w), w);
  }

  /** The placeholder of condition i reads back as the number i + 1. */
  lemma PlaceholderReadsBack(f: Field, i: nat)
    ensures var c := Condition(f, i);
            var digits := c[|Column(f)| + 4..];
            digits == NatToString(i + 1) && ParseInt(digits) == Int(i + 1)
  {
    var c := Condition(f, i);
    assert c == (Column(f) + " = $") + NatToString(i + 1);
    assert c[|Column(f)| + 4..] == NatToString(i + 1);
    ParseIntDecimal("", i + 1, "");
    assert "" + NatToString(i + 1) + "" == NatToString(i + 1);
  }

  /** `WHERE` and the conditions joined by AND, or nothing when there are none. */
  function WhereClause(conditions: seq<string>): (clause: string)
    ensures clause == "" <==> conditions == []
    ensures conditions != [] ==> StartsWith(clause, "WHERE ")
  {
    if conditions == [] then "" else "WHERE " + Join(conditions, " AND ")
  }

  // --------------------------------------------------------- age buckets

  /** The CASE expression of the age query. */
  function AgeBucket(age: Option<int>): string {
    if age.None? then "Unknown"
    else if 0 <= age.value <= 10 then "0-10"
    else if 11 <= age.value <= 20 then "11-20"
    else if 21 <= age.value <= 30 then "21-30"
    else if 31 <= age.value <= 40 then "31-40"
    else if 41 <= age.value <= 50 then "41-50"
    else if 51 <= age.value <= 60 then "51-60"
    else if age.value > 60 then "60+"
    else "Unknown"
  }

  /** The inclusive decade ranges, with their labels. */
  const BucketLows: seq<int> := [0, 11, 21, 31, 41, 51]
  const BucketHighs: seq<int> := [10, 20, 30, 40, 50, 60]
  const BucketLabels: seq<string> := ["0-10", "11-20", "21-30", "31-40", "41-50", "51-60"]

  /** Every non-negative age up to 60 lies in exactly one range and gets its label;
      above 60 is '60+'; a negative or missing age is 'Unknown'. */
  lemma AgeBucketExactlyOne(age: Option<int>)
    ensures age.Some? && 0 <= age.value <= 60 ==>
      exists k :: 0 <= k < 6 && BucketLows[k] <= age.value <= BucketHighs[k] && AgeBucket(age) == BucketLabels[k]
    ensures age.Some? ==> forall k, m :: 0 <= k < m < 6 ==>
      !(BucketLows[k] <= age.value <= BucketHighs[k] && BucketLows[m] <= age.value <= BucketHighs[m])
    ensures age.Some? && age.value > 60 ==> AgeBucket(age) == "60+"
    ensures age.None? || age.value < 0 ==> AgeBucket(age) == "Unknown"
  {
    if age.Some? && 0 <= age.value <= 60 {
      var n := age.value;
      var k := if n <= 10 then 0 else if n <= 20 then 1 else if n <= 30 then 2 else if n <= 40 then 3 else if n <= 50 then 4 else 5;
      assert BucketLows[k] <= n <= BucketHighs[k] && AgeBucket(age) == BucketLabels[k];
    }
  }

  // ------------------------------------------------ grouped count mapping

  /** One row of a groupBy result: the grouped column's value and its count. */
  datatype GroupRow = GroupRow(key: Option<string>, count: int)

  /** `rows.map(item => ({ name: item.key || 'Unknown', value: item._count }))`. */
  function MapRows(rows: seq<GroupRow>): (r: seq<Entry>)
    ensures |r| == |rows|
    ensures forall i :: 0 <= i < |rows| ==> r[i] == Entry(OrUnknown(rows[i].key), rows[i].count)
  {
    if rows == [] then [] else MapRows(rows[..|rows| - 1]) + [Entry(OrUnknown(rows[|rows| - 1].key), rows[|rows| - 1].count)]
  }

  /** The total of the groups: ungrouped counts are not lost in the mapping. */
  function GroupTotal(rows: seq<GroupRow>): int {
    if rows == [] then 0 else GroupTotal(rows[..|rows| - 1]) + rows[|rows| - 1].count
  }

  lemma {:induction false} MapRowsKeepsTotal(rows: seq<GroupRow>)
    ensures Sum(MapRows(rows)) == GroupTotal(rows)
  {
    if rows != [] {
      var init := rows[..|rows| - 1];
      MapRowsKeepsTotal(init);
      assert MapRows(rows)[..|rows| - 1] == MapRows(init);
    }
  }

  /** A row named 'Unknown' comes exactly from a falsy key or the literal value 'Unknown'. */
  lemma UnknownRows(rows: seq<GroupRow>, i: int)
    requires 0 <= i < |rows|
    ensures MapRows(rows)[i].name == "Unknown" <==> !Truthy(rows[i].key) || rows[i].key == Some("Unknown")
  {
  }

  // ------------------------------------------------- age category order

  const AgeCategoryOrder: seq<string> :=
    ["Bayi", "Balita", "Paud", "Cabe Rawit", "Pra-remaja", "Remaja", "Dewasa", "Senior", "Unknown"]

  /** Array.prototype.indexOf: the first position of x, or -1. */
  function IndexOf(s: seq<string>, x: string): (k: int)
    ensures -1 <= k < |s|
    ensures k >= 0 ==> s[k] == x && forall i :: 0 <= i < k ==> s[i] != x
    ensures k == -1 <==> x !in s
  {
    if s == [] then -1
    else if s[0] == x then 0
    else
      var k := IndexOf(s[1..], x);
      if k == -1 then -1 else k + 1
  }

  function CategoryKey(e: Entry): real {
    IndexOf(AgeCategoryOrder, e.name) as real
  }

  /** byAgeCategory's sort: by position in the fixed order, unlisted names (position -1) first. */
  function SortByAgeCategory(s: seq<Entry>): (r: seq<Entry>)
    ensures |r| == |s| && multiset(r) == multiset(s)
    ensures forall i, j :: 0 <= i < j < |r| ==>
      IndexOf(AgeCategoryOrder, r[i].name) <= IndexOf(AgeCategoryOrder, r[j].name)
  {
    var r := StableSort(s, CategoryKey);
    assert forall i, j :: 0 <= i < j < |r| ==> CategoryKey(r[i]) <= CategoryKey(r[j]);
    r
  }

  /** Two names in index order: an unlisted later name means an unlisted earlier
      one, and two different listed names are strictly ordered. */
  lemma IndexOrder(order: seq<string>, x: string, y: string)
    requires IndexOf(order, x) <= IndexOf(order, y)
    ensures y !in order ==> x !in order
    ensures x in order && y in order && x != y ==> IndexOf(order, x) < IndexOf(order, y)
  {
  }

  /** Names outside the fixed order come before every listed one; listed names follow the list. */
  lemma AgeCategoryOrdering(s: seq<Entry>, i: int, j: int)
    requires 0 <= i < j < |SortByAgeCategory(s)|
    ensures var r := SortByAgeCategory(s);
            && (r[j].name !in AgeCategoryOrder ==> r[i].name !in AgeCategoryOrder)
            && (r[i].name in AgeCategoryOrder && r[j].name in AgeCategoryOrder && r[i].name != r[j].name ==>
                IndexOf(AgeCategoryOrder, r[i].name) < IndexOf(AgeCategoryOrder, r[j].name))
  {
    var r := SortByAgeCategory(s);
    IndexOrder(AgeCategoryOrder, r[i].name, r[j].name);
  }

  // ------------------------------------------------------- the response

  /** The raw grouped results the route awaits, in the order it destructures them. */
  datatype Groups = Groups(
    total: nat,
    byGender: seq<GroupRow>, byAgeCategory: seq<GroupRow>, byEducation: seq<GroupRow>,
    byMaritalStatus: seq<GroupRow>, byCategory: seq<GroupRow>, byDesa: seq<GroupRow>,
    byKelompok: seq<GroupRow>, bySheet: seq<GroupRow>, byBloodType: seq<GroupRow>,
    byKemubalighan: seq<GroupRow>, ageDistribution: seq<Entry>,
    desaOptions: seq<string>, kelompokOptions: seq<string>, sheetOptions: seq<string>)

  datatype AnalyticsData = AnalyticsData(
    total: nat,
    byGender: seq<Entry>, byAgeCategory: seq<Entry>, byEducation: seq<Entry>,
    byMaritalStatus: seq<Entry>, byCategory: seq<Entry>, byDesa: seq<Entry>,
    byKelompok: seq<Entry>, bySheet: seq<Entry>, byBloodType: seq<Entry>,
    byKemubalighan: seq<Entry>, ageDistribution: seq<Entry>,
    desaOptions: seq<string>, kelompokOptions: seq<string>, sheetOptions: seq<string>)

  predicate NonIncreasing(s: seq<Entry>) {
    forall i, j :: 0 <= i < j < |s| ==> s[i].value >= s[j].value
  }

  /** The response data: every grouped row mapped and none dropped; age categories in
      the fixed order; education, desa and kelompok by descending count; the other
      breakdowns in query order; each filter option list sorted ascending. */
  function Shape(g: Groups): (d: AnalyticsData)
    ensures d.total == g.total
    ensures d.byGender == MapRows(g.byGender) && d.byMaritalStatus == MapRows(g.byMaritalStatus)
    ensures d.byCategory == MapRows(g.byCategory) && d.bySheet == MapRows(g.bySheet)
    ensures d.byBloodType == MapRows(g.byBloodType) && d.byKemubalighan == MapRows(g.byKemubalighan)
    ensures multiset(d.byAgeCategory) == multiset(MapRows(g.byAgeCategory))
    ensures forall i, j :: 0 <= i < j < |d.byAgeCategory| ==>
              IndexOf(AgeCategoryOrder, d.byAgeCategory[i].name) <= IndexOf(AgeCategoryOrder, d.byAgeCategory[j].name)
    ensures multiset(d.byEducation) == multiset(MapRows(g.byEducation)) && NonIncreasing(d.byEducation)
    ensures multiset(d.byDesa) == multiset(MapRows(g.byDesa)) && NonIncreasing(d.byDesa)
    ensures multiset(d.byKelompok) == multiset(MapRows(g.byKelompok)) && NonIncreasing(d.byKelompok)
    ensures d.ageDistribution == g.ageDistribution
    ensures LexSorted(d.desaOptions) && multiset(d.desaOptions) == multiset(g.desaOptions)
    ensures LexSorted(d.kelompokOptions) && multiset(d.kelompokOptions) == multiset(g.kelompokOptions)
    ensures LexSorted(d.sheetOptions) && multiset(d.sheetOptions) == multiset(g.sheetOptions)
  {
    AnalyticsData(
      g.total,
      MapRows(g.byGender),
      SortByAgeCategory(MapRows(g.byAgeCategory)),
      SortByValueDesc(MapRows(g.byEducation)),
      MapRows(g.byMaritalStatus),
      MapRows(g.byCategory),
      SortByValueDesc(MapRows(g.byDesa)),
      SortByValueDesc(MapRows(g.byKelompok)),
      MapRows(g.bySheet),
      MapRows(g.byBloodType),
      MapRows(g.byKemubalighan),
      g.ageDistribution,
      SortStrings(g.desaOptions),
      SortStrings(g.kelompokOptions),
      SortStrings(g.sheetOptions))
  }
}
