// The census table's record and the query shapes the census routes build
// from URL parameters: a Prisma `where` object of field equalities, an age
// constraint and a name/birthplace search, with its meaning on one record,
// and the page/limit arithmetic shared by the list and details routes.

module Census {
  import opened Wrappers
  import opened JsText

  /** One census row. Every text column may be null; the age is an integer or null. */
  datatype Record = Record(
    no: Option<string>,
    desa: Option<string>,
    kelompok: Option<string>,
    nama: Option<string>,
    tempatLahir: Option<string>,
    tglLahir: Option<string>,
    usiaSekarang: Option<int>,
    jenisKelamin: Option<string>,
    statusPernikahan: Option<string>,
    pendidikan: Option<string>,
    kelas: Option<string>,
    namaLembagaPendidikan: Option<string>,
    dapukan: Option<string>,
    kategori: Option<string>,
    kategoriUsia: Option<string>,
    golonganDarah: Option<string>,
    kemubalighan: Option<string>,
    sheet: Option<string>)

  /** The text columns a `where` can constrain by equality. */
  datatype Field =
    | Desa | Kelompok | Sheet | JenisKelamin | Kategori | KategoriUsia
    | StatusPernikahan | Pendidikan | GolonganDarah | Kemubalighan

  function FieldOf(r: Record, f: Field): Option<string> {
    match f
    case Desa => r.desa
    case Kelompok => r.kelompok
    case Sheet => r.sheet
    case JenisKelamin => r.jenisKelamin
    case Kategori => r.kategori
    case KategoriUsia => r.kategoriUsia
    case StatusPernikahan => r.statusPernikahan
    case Pendidikan => r.pendidikan
    case GolonganDarah => r.golonganDarah
    case Kemubalighan => r.kemubalighan
  }

  /** `value || 'Unknown'`: the value when truthy, else the label 'Unknown'. */
  function OrUnknown(v: Option<string>): (name: string)
    ensures Truthy(v) ==> name == v.value
    ensures !Truthy(v) ==> name == "Unknown"
    ensures name != ""
  {
    if Truthy(v) then v.value else "Unknown"
  }

  /** A location parameter filters only when it is present, non-empty and not 'all'. */
  predicate ActiveFilter(p: Option<string>) {
    Truthy(p) && p.value != "all"
  }

  /** A location filter f set exactly when its parameter is an active filter, to that parameter. */
  predicate FilterEntry(fields: map<Field, string>, f: Field, p: Option<string>) {
    (f in fields <==> ActiveFilter(p)) && (f in fields ==> fields[f] == p.value)
  }

  /** One location filter: written when its parameter is an active filter;
      every other entry is kept. */
  method SetFilter(fields: map<Field, string>, f: Field, p: Option<string>) returns (r: map<Field, string>)
    requires f !in fields
    ensures FilterEntry(r, f, p)
    ensures r == if ActiveFilter(p) then fields[f := p.value] else fields
  {
    r := fields;
    if ActiveFilter(p) {
      r := r[f := p.value];
    }
  }

  /** An attribute filter f set exactly when its parameter is present and non-empty ('all' included). */
  predicate AttributeEntry(fields: map<Field, string>, f: Field, p: Option<string>) {
    (f in fields <==> Truthy(p)) && (f in fields ==> fields[f] == p.value)
  }

  /** The `usiaSekarang` part of a `where`: none, an equality, or optional bounds. */
  datatype AgeConstraint =
    | AnyAge
    | AgeEquals(age: ParsedInt)
    | AgeBetween(gte: Option<ParsedInt>, lte: Option<ParsedInt>)

  datatype Where = Where(fields: map<Field, string>, age: AgeConstraint, search: Option<string>)

  const NoFilter := Where(map[], AnyAge, None)

  /** A lower bound is met by a present age at least the bound; an absent bound by anything. */
  predicate BoundHolds(bound: Option<ParsedInt>, age: int, lower: bool) {
    bound.None? || (bound.value.Int? && (if lower then age >= bound.value.value else age <= bound.value.value))
  }

  /** SQL semantics of the age constraint: a null age fails every comparison,
      and a NaN bound (a non-numeric parameter) matches nothing. */
  predicate AgeMatches(c: AgeConstraint, age: Option<int>) {
    match c
    case AnyAge => true
    case AgeEquals(v) => v.Int? && age == Some(v.value)
    case AgeBetween(gte, lte) => age.Some? && BoundHolds(gte, age.value, true) && BoundHolds(lte, age.value, false)
  }

  function LowerChar(c: char): char {
    if 'A' <= c <= 'Z' then (c as int + 32) as char else c
  }

  function Lower(s: string): (r: string)
    ensures |r| == |s|
  {
    if s == [] then [] else [LowerChar(s[0])] + Lower(s[1..])
  }

  /** needle occurs in hay as a contiguous substring. */
  predicate Contains(hay: string, needle: string) {
    StartsWith(hay, needle) || (hay != [] && Contains(hay[1..], needle))
  }

  /** `{ contains: needle, mode: 'insensitive' }` on a nullable column (ASCII case folding). */
  predicate ContainsInsensitive(hay: Option<string>, needle: string) {
    hay.Some? && Contains(Lower(hay.value), Lower(needle))
  }

  /** Whether a record satisfies a `where`. */
  predicate Matches(w: Where, r: Record): (m: bool)
    ensures w == NoFilter ==> m
    ensures m && !w.age.AnyAge? ==> r.usiaSekarang.Some?
    ensures m && w.search.Some? ==> r.nama.Some? || r.tempatLahir.Some?
  {
    && (forall f :: f in w.fields ==> FieldOf(r, f) == Some(w.fields[f]))
    && AgeMatches(w.age, r.usiaSekarang)
    && (w.search.Some? ==> ContainsInsensitive(r.nama, w.search.value) || ContainsInsensitive(r.tempatLahir, w.search.value))
  }

  /** The records of a table that a `where` selects, in table order. */
  function Select(table: seq<Record>, w: Where): (r: seq<Record>)
    ensures |r| <= |table|
    ensures forall i :: 0 <= i < |r| ==> Matches(w, r[i]) && r[i] in table
    ensures forall i :: 0 <= i < |table| && Matches(w, table[i]) ==> table[i] in r
  {
    if table == [] then []
    else (if Matches(w, table[0]) then [table[0]] else []) + Select(table[1..], w)
  }

  /** Selection is a filter: it distributes over concatenation, so the result keeps
      the table's order and each matching row exactly as often as it occurs. */
  lemma {:induction false} SelectAppend(a: seq<Record>, b: seq<Record>, w: Where)
    ensures Select(a + b, w) == Select(a, w) + Select(b, w)
  {
    if a == [] {
      assert a + b == b;
    } else {
      assert (a + b)[0] == a[0];
      assert (a + b)[1..] == a[1..] + b;
      SelectAppend(a[1..], b, w);
    }
  }

  /** A single row is kept exactly when it matches; nothing comes of no rows. */
  lemma SelectSingle(x: Record, w: Where)
    ensures Select([x], w) == (if Matches(w, x) then [x] else [])
    ensures Select([], w) == []
  {
    assert [x][1..] == [];
  }

  /** The empty `where` selects every record. */
  lemma {:induction false} SelectAll(table: seq<Record>)
    ensures Select(table, NoFilter) == table
  {
    if table != [] {
      SelectAll(table[1..]);
      assert [table[0]] + table[1..] == table;
    }
  }

  // ------------------------------------------------------------ pagination

  /** `parseInt(param) || default`: a missing, non-numeric or zero parameter gives the default. */
  function PageParam(p: Option<string>, default: int): (r: int)
    ensures p.None? ==> r == default
    ensures p.Some? ==> r == IntOr(ParseInt(p.value), default)
    ensures default != 0 ==> r != 0
  {
    if p.None? then default else IntOr(ParseInt(p.value), default)
  }

  /** A positive decimal parameter is read as its value. */
  lemma PageParamDecimal(n: nat, default: int)
    requires n > 0
    ensures PageParam(Some(NatToString(n)), default) == n
  {
    ParseIntOfNat(n);
  }

  /** A negative decimal parameter is not caught by the fallback: it is read as given. */
  lemma PageParamNegative(n: nat, default: int)
    requires n > 0
    ensures PageParam(Some("-" + NatToString(n)), default) == -(n as int)
  {
    ParseIntNegativeDecimal("", n, "");
    assert "" + "-" + NatToString(n) + "" == "-" + NatToString(n);
  }

  /** `"0"`, an empty or a non-numeric parameter falls back to the default. */
  lemma PageParamFallback(default: int)
    ensures PageParam(Some("0"), default) == default
    ensures PageParam(Some(""), default) == default
    ensures PageParam(Some("abc"), default) == default
  {
    ParseIntZero();
    ParseIntNoDigits("");
    ParseIntAbc();
  }

  lemma ParseIntZero()
    ensures ParseInt("0") == Int(0)
  {
    ParseIntOfNat(0);
    assert NatToString(0) == "0";
  }

  lemma ParseIntAbc()
    ensures ParseInt("abc") == NaN
  {
    var s := "abc";
    assert !IsDecimalDigit(s[0]) && !IsDecimalDigit(s[1]) && !IsDecimalDigit(s[2]);
    ParseIntNoDigits(s);
  }

  /** `(page - 1) * limit`: the number of records before the given page. */
  function Skip(page: int, limit: int): (r: int)
    ensures page >= 1 && limit >= 0 ==> r >= 0
    ensures page == 1 ==> r == 0
  {
    (page - 1) * limit
  }

  /** Consecutive pages start exactly one limit apart. */
  lemma SkipConsecutive(page: int, limit: int)
    ensures Skip(page + 1, limit) == Skip(page, limit) + limit
  {
  }

  /** `n` pages of `limit` records are the fewest that hold `total` records. */
  predicate PagesHold(n: int, limit: int, total: nat) {
    n >= 0 && (n - 1) * limit < total <= n * limit
  }

  /** `Math.ceil(total / limit)` for a non-zero limit (a negative limit gives a
      non-positive page count). */
  function TotalPages(total: nat, limit: int): (r: int)
    requires limit != 0
    ensures limit > 0 ==> PagesHold(r, limit, total)
    ensures limit < 0 ==> r <= 0
  {
    if limit > 0 then (total + limit - 1) / limit else -(total / -limit)
  }

  /** For a positive limit the pages 1..TotalPages cover every record, each page starts
      before the total, and the page after the last would be empty. */
  lemma TotalPagesCover(total: nat, limit: int)
    requires limit > 0
    ensures var n := TotalPages(total, limit);
            Skip(n + 1, limit) >= total && (n >= 1 ==> Skip(n, limit) < total)
  {
  }

  function Min(a: int, b: int): int {
    if a <= b then a else b
  }

  /** `skip: (page - 1) * limit, take: limit` on the selected records, in query order. */
  function PageSlice(s: seq<Record>, page: int, limit: int): (r: seq<Record>)
    requires page >= 1 && limit > 0
    ensures |r| == Min(limit, if |s| > Skip(page, limit) then |s| - Skip(page, limit) else 0)
    ensures forall i :: 0 <= i < |r| ==> r[i] == s[Skip(page, limit) + i]
  {
    var from := Skip(page, limit);
    if from >= |s| then [] else s[from..Min(from + limit, |s|)]
  }

  /** Pages 1..TotalPages are the non-empty ones: every later page is empty. */
  lemma PageSliceNonEmpty(s: seq<Record>, page: int, limit: int)
    requires page >= 1 && limit > 0
    ensures PageSlice(s, page, limit) != [] <==> page <= TotalPages(|s|, limit)
  {
    var n := TotalPages(|s|, limit);
    if page <= n {
      MulMonotone(page - 1, n - 1, limit);
    } else {
      MulMonotone(n, page - 1, limit);
    }
  }

  lemma MulMonotone(a: int, b: int, c: nat)
    requires a <= b
    ensures a * c <= b * c
  {
  }
}
