// The Tim PNKB composition route (app/api/census/tim-pnkb/route.js): the
// records aged 21 to 35 under the optional location filters, and the
// breakdowns computed from them. The database query itself is outside the
// model: `records` is the list findMany returns.

module TimPnkb {
  import opened Wrappers
  import opened JsText
  import opened Census
  import opened Entries

  const MinAge: int := 21
  const MaxAge: int := 35

  /** The query's `where`: the age window and the location filters that are active. */
  predicate IsTimPnkbWhere(w: Where, desa: Option<string>, kelompok: Option<string>, sheet: Option<string>) {
    && w.age == AgeBetween(Some(Int(MinAge)), Some(Int(MaxAge)))
    && w.search.None?
    && w.fields.Keys <= {Desa, Kelompok, Sheet}
    && FilterEntry(w.fields, Desa, desa)
    && FilterEntry(w.fields, Kelompok, kelompok)
    && FilterEntry(w.fields, Sheet, sheet)
  }

  /** Builds the `where` by conditional writes, as the route does. */
  method BuildWhere(desa: Option<string>, kelompok: Option<string>, sheet: Option<string>) returns (w: Where)
    ensures IsTimPnkbWhere(w, desa, kelompok, sheet)
  {
    w := Where(map[], AgeBetween(Some(Int(MinAge)), Some(Int(MaxAge))), None);
    if ActiveFilter(desa) {
      w := w.(fields := w.fields[Desa := desa.value]);
    }
    if ActiveFilter(kelompok) {
      w := w.(fields := w.fields[Kelompok := kelompok.value]);
    }
    if ActiveFilter(sheet) {
      w := w.(fields := w.fields[Sheet := sheet.value]);
    }
  }

  /** The route selects exactly the records aged 21 to 35 (inclusive) that agree
      with every active location filter. */
  lemma WhereSelectsMarriageAge(w: Where, desa: Option<string>, kelompok: Option<string>, sheet: Option<string>, r: Record)
    requires IsTimPnkbWhere(w, desa, kelompok, sheet)
    ensures Matches(w, r) <==>
      && r.usiaSekarang.Some? && MinAge <= r.usiaSekarang.value <= MaxAge
      && (ActiveFilter(desa) ==> r.desa == desa)
      && (ActiveFilter(kelompok) ==> r.kelompok == kelompok)
      && (ActiveFilter(sheet) ==> r.sheet == sheet)
  {
    if ActiveFilter(desa) && ActiveFilter(kelompok) && ActiveFilter(sheet) {
      assert Desa in w.fields && Kelompok in w.fields && Sheet in w.fields;
    }
  }

  // ---------------------------------------------------------------- gender

  /** How many records have the given jenisKelamin. */
  function CountGender(records: seq<Record>, g: string): (n: nat)
    ensures n <= |records|
  {
    if records == [] then 0
    else CountGender(records[..|records| - 1], g) + (if records[|records| - 1].jenisKelamin == Some(g) then 1 else 0)
  }

  lemma {:induction false} GenderCountsBound(records: seq<Record>)
    ensures CountGender(records, "L") + CountGender(records, "P") <= |records|
  {
    if records != [] {
      GenderCountsBound(records[..|records| - 1]);
    }
  }

  lemma GenderListFacts(l: nat, p: nat)
    ensures var r := (if l > 0 then [Entry("L", l)] else []) + (if p > 0 then [Entry("P", p)] else []);
            && Sum(r) == (if l > 0 then l else 0) + (if p > 0 then p else 0)
            && (HasName(r, "L") <==> l > 0) && (HasName(r, "P") <==> p > 0)
            && (forall i :: 0 <= i < |r| ==> (r[i].name == "L" && r[i].value == l) || (r[i].name == "P" && r[i].value == p))
  {
    var r := (if l > 0 then [Entry("L", l)] else []) + (if p > 0 then [Entry("P", p)] else []);
    if l > 0 && p > 0 {
      assert r == [Entry("L", l), Entry("P", p)];
      assert r[0].name == "L" && r[1].name == "P";
      assert Sum(r) == Sum([Entry("L", l)]) + p;
    } else if l > 0 {
      assert r == [Entry("L", l)];
      assert r[0].name == "L";
    } else if p > 0 {
      assert r == [Entry("P", p)];
      assert r[0].name == "P";
    } else {
      assert r == [];
    }
  }

  /** byGender: 'L' then 'P', each kept only when its count is positive. */
  function ByGender(records: seq<Record>): (r: seq<Entry>)
    ensures forall i :: 0 <= i < |r| ==> (r[i].name == "L" || r[i].name == "P")
    ensures forall i :: 0 <= i < |r| ==> r[i].value > 0 && r[i].value == CountGender(records, r[i].name)
    ensures HasName(r, "L") <==> CountGender(records, "L") > 0
    ensures HasName(r, "P") <==> CountGender(records, "P") > 0
    ensures DistinctNames(r) && (|r| == 2 ==> r[0].name == "L")
    ensures Sum(r) <= |records|
  {
    var l := CountGender(records, "L");
    var p := CountGender(records, "P");
    GenderCountsBound(records);
    var r := (if l > 0 then [Entry("L", l)] else []) + (if p > 0 then [Entry("P", p)] else []);
    GenderListFacts(l, p);
    r
  }

  // ------------------------------------------------------------ breakdowns

  /** The breakdown label of each record: its value in field f, or 'Unknown' when falsy. */
  function Labels(records: seq<Record>, f: Field): (ls: seq<string>)
    ensures |ls| == |records|
    ensures forall i :: 0 <= i < |records| ==> ls[i] == OrUnknown(FieldOf(records[i], f))
  {
    if records == [] then []
    else Labels(records[..|records| - 1], f) + [OrUnknown(FieldOf(records[|records| - 1], f))]
  }

  /** Occurrences of x in ls. */
  function Occ(ls: seq<string>, x: string): (n: nat)
    ensures n <= |ls|
    ensures n > 0 <==> x in ls
  {
    if ls == [] then 0
    else
      var init := ls[..|ls| - 1];
      assert ls == init + [ls[|ls| - 1]];
      Occ(init, x) + (if ls[|ls| - 1] == x then 1 else 0)
  }

  /** The position of the entry named x, or -1 (Map.get). */
  function IndexOfName(e: seq<Entry>, x: string): (k: int)
    ensures -1 <= k < |e|
    ensures k >= 0 ==> e[k].name == x
    ensures k == -1 <==> !HasName(e, x)
  {
    if e == [] then -1
    else if e[|e| - 1].name == x then |e| - 1
    else
      var k := IndexOfName(e[..|e| - 1], x);
      assert forall i :: 0 <= i < |e| - 1 ==> e[..|e| - 1][i] == e[i];
      k
  }

  /** `map.set(x, (map.get(x) || 0) + 1)` on an insertion-ordered map: an existing
      key is updated in place, a new key goes to the end. */
  function Bump(e: seq<Entry>, x: string): seq<Entry> {
    var k := IndexOfName(e, x);
    if k >= 0 then e[k := Entry(x, e[k].value + 1)] else e + [Entry(x, 1)]
  }

  /** The counting Map after the forEach over the labels, as its entries in insertion order. */
  function Tally(ls: seq<string>): (t: seq<Entry>)
    ensures |t| <= |ls|
    ensures ls != [] ==> t != []
  {
    if ls == [] then [] else Bump(Tally(ls[..|ls| - 1]), ls[|ls| - 1])
  }

  /** t is the counting map of ls: names distinct, each counting its occurrences,
      exactly the labels of ls present, values summing to the number of labels. */
  ghost predicate TallyOf(t: seq<Entry>, ls: seq<string>) {
    && DistinctNames(t)
    && (forall i :: 0 <= i < |t| ==> t[i].value == Occ(ls, t[i].name) && t[i].value >= 1)
    && (forall y :: HasName(t, y) <==> y in ls)
    && Sum(t) == |ls|
  }

  lemma OccSnoc(init: seq<string>, x: string, y: string)
    ensures Occ(init + [x], y) == Occ(init, y) + (if x == y then 1 else 0)
  {
    assert (init + [x])[..|init|] == init;
  }

  /** Counting a label already in the map raises its count in place. */
  lemma BumpExisting(t0: seq<Entry>, init: seq<string>, x: string)
    requires TallyOf(t0, init) && HasName(t0, x)
    ensures TallyOf(Bump(t0, x), init + [x])
  {
    var k := IndexOfName(t0, x);
    BumpAt(t0, x);
    RaisedTally(t0, init, x, k, Bump(t0, x));
  }

  /** Bumping a name the map holds updates its entry in place. */
  lemma BumpAt(e: seq<Entry>, x: string)
    requires HasName(e, x)
    ensures var k := IndexOfName(e, x);
            0 <= k < |e| && e[k].name == x && Bump(e, x) == e[k := Entry(x, e[k].value + 1)]
  {
  }

  /** The tally with the count at x's position raised by one. */
  lemma RaisedTally(t0: seq<Entry>, init: seq<string>, x: string, k: int, t: seq<Entry>)
    requires TallyOf(t0, init) && 0 <= k < |t0| && t0[k].name == x
    requires t == t0[k := Entry(x, t0[k].value + 1)]
    ensures TallyOf(t, init + [x])
  {
    SumUpdate(t0, k, Entry(x, t0[k].value + 1));
    BumpedCounts(t0, init, x, k);
    SameNames(t0, k, Entry(x, t0[k].value + 1));
    assert x in init;
    assert Sum(t) == |init + [x]|;
    assert forall y :: HasName(t, y) <==> y in init + [x];
  }

  /** Raising the count at x's position keeps each count equal to the occurrences. */
  lemma BumpedCounts(t0: seq<Entry>, init: seq<string>, x: string, k: int)
    requires 0 <= k < |t0| && t0[k].name == x && DistinctNames(t0)
    requires forall i :: 0 <= i < |t0| ==> t0[i].value == Occ(init, t0[i].name) && t0[i].value >= 1
    ensures var t := t0[k := Entry(x, t0[k].value + 1)];
            forall i :: 0 <= i < |t| ==> t[i].value == Occ(init + [x], t[i].name) && t[i].value >= 1
  {
    var t := t0[k := Entry(x, t0[k].value + 1)];
    forall i | 0 <= i < |t| ensures t[i].value == Occ(init + [x], t[i].name) && t[i].value >= 1 {
      OccSnoc(init, x, t[i].name);
    }
  }

  /** Replacing an entry by one of the same name keeps the names. */
  lemma SameNames(t0: seq<Entry>, k: int, e: Entry)
    requires 0 <= k < |t0| && t0[k].name == e.name
    ensures DistinctNames(t0) ==> DistinctNames(t0[k := e])
    ensures forall y :: HasName(t0[k := e], y) <==> HasName(t0, y)
  {
    var t := t0[k := e];
    assert forall i :: 0 <= i < |t| ==> t[i].name == t0[i].name;
    forall y ensures HasName(t, y) <==> HasName(t0, y) {
      if HasName(t0, y) {
        var i :| 0 <= i < |t0| && t0[i].name == y;
        assert t[i].name == y;
      }
    }
  }

  /** Counting a new label appends it with count 1. */
  lemma BumpNew(t0: seq<Entry>, init: seq<string>, x: string)
    requires TallyOf(t0, init) && !HasName(t0, x)
    ensures TallyOf(Bump(t0, x), init + [x])
  {
    var ls := init + [x];
    var t := Bump(t0, x);
    assert t == t0 + [Entry(x, 1)];
    SumAppend(t0, [Entry(x, 1)]);
    assert Sum([Entry(x, 1)]) == 1;
    assert x !in init;
    forall i | 0 <= i < |t| ensures t[i].value == Occ(ls, t[i].name) && t[i].value >= 1 {
      OccSnoc(init, x, t[i].name);
    }
    forall y ensures HasName(t, y) <==> y in ls {
      if HasName(t0, y) {
        var i :| 0 <= i < |t0| && t0[i].name == y;
        assert t[i].name == y;
      }
      if y == x {
        assert t[|t0|].name == y;
      }
    }
  }

  /** The counting loop: every label counted once under its name, names distinct,
      values summing to the number of labels. */
  lemma {:induction false} TallyFacts(ls: seq<string>)
    ensures TallyOf(Tally(ls), ls)
  {
    if ls != [] {
      var init, x := ls[..|ls| - 1], ls[|ls| - 1];
      assert ls == init + [x];
      TallyFacts(init);
      if HasName(Tally(init), x) {
        BumpExisting(Tally(init), init, x);
      } else {
        BumpNew(Tally(init), init, x);
      }
    }
  }

  /** A breakdown: the tally of field f's labels, sorted by descending count. */
  function Breakdown(records: seq<Record>, f: Field): (r: seq<Entry>)
    ensures multiset(r) == multiset(Tally(Labels(records, f)))
    ensures records != [] ==> r != []
  {
    SortByValueDesc(Tally(Labels(records, f)))
  }

  /** Reordering a counting map keeps it a counting map of the same labels. */
  lemma PermutedTally(t: seq<Entry>, r: seq<Entry>, ls: seq<string>)
    requires TallyOf(t, ls) && multiset(r) == multiset(t)
    requires DistinctNames(r) && Sum(r) == Sum(t)
    ensures TallyOf(r, ls)
  {
    forall i | 0 <= i < |r| ensures r[i].value == Occ(ls, r[i].name) && r[i].value >= 1 {
      assert r[i] in multiset(t);
    }
    forall x ensures HasName(r, x) <==> HasName(t, x) {
      if HasName(t, x) {
        var i :| 0 <= i < |t| && t[i].name == x;
        assert t[i] in multiset(r);
      }
      if HasName(r, x) {
        var i :| 0 <= i < |r| && r[i].name == x;
        assert r[i] in multiset(t);
      }
    }
  }

  /** Every record is counted once, under its value or 'Unknown'; names are distinct
      and present exactly for the labels that occur; counts do not increase along the
      list; the values sum to the number of records. */
  lemma BreakdownFacts(records: seq<Record>, f: Field)
    ensures TallyOf(Breakdown(records, f), Labels(records, f))
    ensures var r := Breakdown(records, f);
            forall i, j :: 0 <= i < j < |r| ==> r[i].value >= r[j].value
    ensures Sum(Breakdown(records, f)) == |records|
  {
    var ls := Labels(records, f);
    var t := Tally(ls);
    TallyFacts(ls);
    PermutedTally(t, SortByValueDesc(t), ls);
  }

  /** Equal counts keep the order in which the labels first appear among the
      records: the tally's insertion order, kept by the stable sort. */
  lemma BreakdownTieOrder(records: seq<Record>, f: Field, i: int, j: int)
    requires 0 <= i < j < |Breakdown(records, f)|
    requires Breakdown(records, f)[i].value == Breakdown(records, f)[j].value
    ensures var ls, r := Labels(records, f), Breakdown(records, f);
            FirstPos(ls, r[i].name) < FirstPos(ls, r[j].name)
  {
    var ls := Labels(records, f);
    var t := Tally(ls);
    SortByValueDescTieOrder(t, i, j);
    var a, b :| 0 <= a < b < |t| && t[a] == SortByValueDesc(t)[i] && t[b] == SortByValueDesc(t)[j];
    TallyOrder(ls);
  }

  // ------------------------------------------------------- first occurrence

  /** The position of the first x in ls, or |ls| when there is none. */
  function FirstPos(ls: seq<string>, x: string): (k: nat)
    ensures k <= |ls|
    ensures k < |ls| ==> ls[k] == x
    ensures forall i :: 0 <= i < k ==> ls[i] != x
  {
    if ls == [] then 0
    else
      var init := ls[..|ls| - 1];
      var k := FirstPos(init, x);
      assert forall i :: 0 <= i < |init| ==> init[i] == ls[i];
      if k < |init| then k else if ls[|ls| - 1] == x then |init| else |ls|
  }

  lemma FirstPosSnoc(init: seq<string>, x: string, y: string)
    ensures FirstPos(init + [x], y)
            == if FirstPos(init, y) < |init| then FirstPos(init, y) else if x == y then |init| else |init| + 1
  {
    assert (init + [x])[..|init|] == init;
  }

  /** The tally's entries are in the order their labels first appear, each label
      appearing. */
  predicate InFirstOrder(t: seq<Entry>, ls: seq<string>) {
    && (forall i :: 0 <= i < |t| ==> FirstPos(ls, t[i].name) < |ls|)
    && (forall i, j :: 0 <= i < j < |t| ==> FirstPos(ls, t[i].name) < FirstPos(ls, t[j].name))
  }

  /** Map insertion order: a label enters the counting map at its first occurrence
      and later occurrences leave its place alone. */
  lemma {:induction false} TallyOrder(ls: seq<string>)
    ensures InFirstOrder(Tally(ls), ls)
  {
    if ls != [] {
      var init, x := ls[..|ls| - 1], ls[|ls| - 1];
      assert ls == init + [x];
      TallyOrder(init);
      TallyOrderStep(init, x);
    }
  }

  /** One more label: bumped in place when already counted, appended otherwise. */
  lemma TallyOrderStep(init: seq<string>, x: string)
    requires InFirstOrder(Tally(init), init)
    ensures InFirstOrder(Tally(init + [x]), init + [x])
  {
    var t0 := Tally(init);
    TallySnoc(init, x);
    TallyHasName(init, x);
    if HasName(t0, x) {
      BumpAt(t0, x);
      BumpedOrder(t0, init, x, Bump(t0, x));
    } else {
      NewOrder(t0, init, x);
    }
  }

  lemma TallySnoc(init: seq<string>, x: string)
    ensures Tally(init + [x]) == Bump(Tally(init), x)
  {
    assert (init + [x])[..|init|] == init;
  }

  /** A label has an entry in the tally exactly when it occurs. */
  lemma TallyHasName(ls: seq<string>, x: string)
    ensures HasName(Tally(ls), x) <==> x in ls
  {
    TallyFacts(ls);
  }

  /** Renaming nothing, an in-place update keeps the first-occurrence order. */
  lemma BumpedOrder(t0: seq<Entry>, init: seq<string>, x: string, t: seq<Entry>)
    requires InFirstOrder(t0, init) && |t| == |t0|
    requires forall i :: 0 <= i < |t| ==> t[i].name == t0[i].name
    ensures InFirstOrder(t, init + [x])
  {
    forall i | 0 <= i < |t| ensures FirstPos(init + [x], t[i].name) == FirstPos(init, t0[i].name) {
      FirstPosSnoc(init, x, t[i].name);
    }
  }

  /** Appending a label never seen before puts it last, at its first occurrence. */
  lemma NewOrder(t0: seq<Entry>, init: seq<string>, x: string)
    requires InFirstOrder(t0, init) && x !in init
    ensures InFirstOrder(t0 + [Entry(x, 1)], init + [x])
  {
    var t := t0 + [Entry(x, 1)];
    FirstPosSnoc(init, x, x);
    forall i | 0 <= i < |t0| ensures FirstPos(init + [x], t[i].name) == FirstPos(init, t0[i].name) {
      FirstPosSnoc(init, x, t[i].name);
    }
    assert FirstPos(init, x) == |init|;
  }

  // ---------------------------------------------------------------- singles

  /** Belum Menikah, Lajang, or no status at all. */
  predicate IsSingle(r: Record) {
    r.statusPernikahan == Some("Belum Menikah") || r.statusPernikahan == Some("Lajang") || !Truthy(r.statusPernikahan)
  }

  function Singles(records: seq<Record>): (n: nat)
    ensures n <= |records|
  {
    if records == [] then 0
    else Singles(records[..|records| - 1]) + (if IsSingle(records[|records| - 1]) then 1 else 0)
  }

  /** The records with no marital status at all (null, undefined or empty). */
  function NoStatus(records: seq<Record>): (n: nat)
    ensures n <= |records|
  {
    if records == [] then 0
    else NoStatus(records[..|records| - 1]) + (if Truthy(records[|records| - 1].statusPernikahan) then 0 else 1)
  }

  /** singles is exactly the 'Belum Menikah' and 'Lajang' counts of the marital
      breakdown plus the records without a status; those all sit under the
      'Unknown' label, which can also hold records whose status is the text
      'Unknown'. */
  lemma {:induction false} SinglesBounds(records: seq<Record>)
    ensures var ls := Labels(records, StatusPernikahan);
            && Singles(records) == Occ(ls, "Belum Menikah") + Occ(ls, "Lajang") + NoStatus(records)
            && NoStatus(records) <= Occ(ls, "Unknown")
            && Occ(ls, "Belum Menikah") + Occ(ls, "Lajang") <= Singles(records)
            <= Occ(ls, "Belum Menikah") + Occ(ls, "Lajang") + Occ(ls, "Unknown")
  {
    if records != [] {
      var init, r := records[..|records| - 1], records[|records| - 1];
      SinglesBounds(init);
      SinglesStep(records);
    }
  }

  /** One more record adds one to singles exactly when it is single, one to the
      records without status when it has none, and one to the occurrences of its
      label. */
  lemma SinglesStep(records: seq<Record>)
    requires records != []
    ensures var init, r := records[..|records| - 1], records[|records| - 1];
            var l0, ls := Labels(init, StatusPernikahan), Labels(records, StatusPernikahan);
            var tag := OrUnknown(r.statusPernikahan);
            && Singles(records) == Singles(init) + (if IsSingle(r) then 1 else 0)
            && NoStatus(records) == NoStatus(init) + (if Truthy(r.statusPernikahan) then 0 else 1)
            && (IsSingle(r) <==> tag == "Belum Menikah" || tag == "Lajang" || !Truthy(r.statusPernikahan))
            && (!Truthy(r.statusPernikahan) ==> tag == "Unknown")
            && Occ(ls, "Belum Menikah") == Occ(l0, "Belum Menikah") + (if tag == "Belum Menikah" then 1 else 0)
            && Occ(ls, "Lajang") == Occ(l0, "Lajang") + (if tag == "Lajang" then 1 else 0)
            && Occ(ls, "Unknown") == Occ(l0, "Unknown") + (if tag == "Unknown" then 1 else 0)
  {
    var init, r := records[..|records| - 1], records[|records| - 1];
    var l0 := Labels(init, StatusPernikahan);
    var tag := OrUnknown(FieldOf(r, StatusPernikahan));
    assert Labels(records, StatusPernikahan) == l0 + [tag];
    OccSnoc(l0, tag, "Belum Menikah");
    OccSnoc(l0, tag, "Lajang");
    OccSnoc(l0, tag, "Unknown");
  }

  // -------------------------------------------------------- the composition

  datatype Composition = Composition(
    total: nat, singles: nat, byGender: seq<Entry>, byMaritalStatus: seq<Entry>,
    byCategory: seq<Entry>, byEducation: seq<Entry>, records: seq<Record>)

  /** One breakdown's forEach loop over the records, counting into an insertion-ordered map. */
  method CountBy(records: seq<Record>, f: Field) returns (counts: seq<Entry>)
    ensures counts == Tally(Labels(records, f))
  {
    counts := [];
    var i := 0;
    while i < |records|
      invariant 0 <= i <= |records|
      invariant counts == Tally(Labels(records[..i], f))
    {
      var name := OrUnknown(FieldOf(records[i], f));
      assert records[..i + 1][..i] == records[..i];
      counts := Bump(counts, name);
      i := i + 1;
    }
    assert records[..|records|] == records;
  }

  /** The route's response data for the selected records. */
  method Compose(records: seq<Record>) returns (c: Composition)
    ensures c.total == |records| && c.records == records
    ensures c.singles == Singles(records) && c.byGender == ByGender(records)
    ensures c.byMaritalStatus == Breakdown(records, StatusPernikahan)
    ensures c.byCategory == Breakdown(records, Kategori)
    ensures c.byEducation == Breakdown(records, Pendidikan)
  {
    var marital := CountBy(records, StatusPernikahan);
    var category := CountBy(records, Kategori);
    var education := CountBy(records, Pendidikan);
    c := Composition(|records|, Singles(records), ByGender(records),
                     SortByValueDesc(marital), SortByValueDesc(category), SortByValueDesc(education), records);
  }
}
