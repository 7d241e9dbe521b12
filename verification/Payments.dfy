/** One list of payments out of two tables: the top-k merge behind a page, and the totals by currency. */
module Payments {
  import opened Basics
  import opened TextOrder

  datatype PaymentType = RENT | ELECTRICITY

  datatype Direction = Asc | Desc

  /** `time` is the column the list is sorted by, in milliseconds. */
  datatype Row = Row(kind: PaymentType, id: string, time: int, currency: string, amount: real)

  // ---- the order --------------------------------------------------------------------------------

  predicate Earlier(a: Row, b: Row) { a.time < b.time || (a.time == b.time && Less(a.id, b.id)) }

  /** The sign of the comparison: negative, zero, positive. */
  function ComparePayments(a: Row, b: Row, direction: Direction): int {
    var base :=
      if a.time != b.time then a.time - b.time
      else if Less(a.id, b.id) then -1
      else if Less(b.id, a.id) then 1
      else 0;
    if direction == Asc then base else -base
  }

  predicate Precedes(a: Row, b: Row, direction: Direction) { if direction == Asc then Earlier(a, b) else Earlier(b, a) }

  lemma PrecedesIsStrictOrder(a: Row, b: Row, c: Row, direction: Direction)
    ensures !Precedes(a, a, direction)
    ensures Precedes(a, b, direction) && Precedes(b, c, direction) ==> Precedes(a, c, direction)
    ensures Precedes(a, b, direction) || Precedes(b, a, direction) || (a.time == b.time && a.id == b.id)
    ensures !(Precedes(a, b, direction) && Precedes(b, a, direction))
  {
    Irreflexive(a.id);
    Total(a.id, b.id);
    if Less(a.id, b.id) && Less(b.id, c.id) { Transitive(a.id, b.id, c.id); }
    if Less(c.id, b.id) && Less(b.id, a.id) { Transitive(c.id, b.id, a.id); }
    if Less(a.id, b.id) && Less(b.id, a.id) { Transitive(a.id, b.id, a.id); }
  }

  /** The comparison that the merge sorts with is the order that the tables are read in. */
  lemma ComparisonIsTheOrder(a: Row, b: Row, direction: Direction)
    ensures ComparePayments(a, b, direction) < 0 <==> Precedes(a, b, direction)
    ensures ComparePayments(a, b, direction) == 0 <==> a.time == b.time && a.id == b.id
    ensures ComparePayments(a, b, direction) < 0 <==> ComparePayments(b, a, direction) > 0
  {
    PrecedesIsStrictOrder(a, b, a, direction);
    PrecedesIsStrictOrder(b, a, b, direction);
  }

  // ---- sorting ----------------------------------------------------------------------------------

  ghost predicate Sorted(s: seq<Row>, direction: Direction) {
    forall i, j | 0 <= i < j < |s| :: Precedes(s[i], s[j], direction)
  }

  /** No two rows agree in time and id. */
  ghost predicate Distinct(s: seq<Row>) {
    forall i, j | 0 <= i < j < |s| :: s[i].time != s[j].time || s[i].id != s[j].id
  }

  function Insert(s: seq<Row>, x: Row, direction: Direction): seq<Row> {
    if s == [] then [x]
    else if ComparePayments(s[|s| - 1], x, direction) <= 0 then s + [x]
    else Insert(s[..|s| - 1], x, direction) + [s[|s| - 1]]
  }

  /** A stable sort by the comparison. */
  function Sort(s: seq<Row>, direction: Direction): seq<Row> {
    if s == [] then [] else Insert(Sort(s[..|s| - 1], direction), s[|s| - 1], direction)
  }

  lemma AppendSorts(s: seq<Row>, x: Row, direction: Direction)
    requires Sorted(s, direction) && forall y | y in s :: Precedes(y, x, direction)
    ensures Sorted(s + [x], direction)
  {
  }

  /** Everything before the last of a sorted list precedes what the last precedes. */
  lemma ThroughLast(s: seq<Row>, x: Row, direction: Direction)
    requires s != [] && Sorted(s, direction) && Precedes(s[|s| - 1], x, direction)
    ensures forall y | y in s :: Precedes(y, x, direction)
  {
    forall i | 0 <= i < |s| ensures Precedes(s[i], x, direction) {
      if i < |s| - 1 { PrecedesIsStrictOrder(s[i], s[|s| - 1], x, direction); }
    }
  }

  lemma {:induction false} InsertSorts(s: seq<Row>, x: Row, direction: Direction)
    requires Sorted(s, direction) && forall i | 0 <= i < |s| :: s[i].time != x.time || s[i].id != x.id
    ensures Sorted(Insert(s, x, direction), direction)
    ensures multiset(Insert(s, x, direction)) == multiset(s) + multiset{x}
  {
    if s != [] {
      var n := |s| - 1;
      var init, last := s[..n], s[n];
      assert s == init + [last];
      ComparisonIsTheOrder(last, x, direction);
      if ComparePayments(last, x, direction) <= 0 {
        ThroughLast(s, x, direction);
        AppendSorts(s, x, direction);
      } else {
        InsertSorts(init, x, direction);
        var r := Insert(init, x, direction);
        forall y | y in r ensures Precedes(y, last, direction) {
          assert y in multiset(r);
          assert y in init || y == x;
        }
        AppendSorts(r, last, direction);
      }
    }
  }

  lemma {:induction false} SortSorts(s: seq<Row>, direction: Direction)
    requires Distinct(s)
    ensures Sorted(Sort(s, direction), direction) && multiset(Sort(s, direction)) == multiset(s)
  {
    if s != [] {
      var init, last := s[..|s| - 1], s[|s| - 1];
      SortSorts(init, direction);
      var t := Sort(init, direction);
      assert s == init + [last];
      forall i | 0 <= i < |t| ensures t[i].time != last.time || t[i].id != last.id {
        assert t[i] in multiset(t);
        assert t[i] in init;
      }
      InsertSorts(t, last, direction);
    }
  }

  lemma HeadIsFirst(s: seq<Row>, t: seq<Row>, direction: Direction)
    requires s != [] && t != [] && Sorted(s, direction) && Sorted(t, direction) && multiset(s) == multiset(t)
    ensures s[0] == t[0]
  {
    assert s[0] in multiset(t) && t[0] in multiset(s);
    assert s[0] in t && t[0] in s;
    PrecedesIsStrictOrder(s[0], t[0], s[0], direction);
  }

  /** Rows in strict order are determined by which rows they are. */
  lemma {:induction false} SortedIsUnique(s: seq<Row>, t: seq<Row>, direction: Direction)
    requires Sorted(s, direction) && Sorted(t, direction) && multiset(s) == multiset(t)
    ensures s == t
  {
    assert |s| == |multiset(s)| == |multiset(t)| == |t|;
    if s != [] {
      HeadIsFirst(s, t, direction);
      assert s == [s[0]] + s[1..] && t == [t[0]] + t[1..];
      assert multiset(s[1..]) == multiset(s) - multiset{s[0]};
      assert multiset(t[1..]) == multiset(t) - multiset{t[0]};
      SortedIsUnique(s[1..], t[1..], direction);
    }
  }

  // ---- merging two tables -----------------------------------------------------------------------

  function Take(s: seq<Row>, k: nat): seq<Row> { if k <= |s| then s[..k] else s }

  function Slice(s: seq<Row>, skip: nat, limit: nat): seq<Row> {
    if skip >= |s| then [] else Take(s[skip..], limit)
  }

  /** Join, sort, cut. */
  function MergePaymentPage(lists: seq<seq<Row>>, direction: Direction, skip: nat, limit: nat): seq<Row> {
    Slice(Sort(Flat(lists), direction), skip, limit)
  }

  function Flat(lists: seq<seq<Row>>): seq<Row> { if lists == [] then [] else lists[0] + Flat(lists[1..]) }

  function Merge(a: seq<Row>, b: seq<Row>, direction: Direction): seq<Row> {
    if a == [] then b
    else if b == [] then a
    else if Precedes(a[0], b[0], direction) then [a[0]] + Merge(a[1..], b, direction)
    else [b[0]] + Merge(a, b[1..], direction)
  }

  ghost predicate AllDiffer(a: seq<Row>, b: seq<Row>) {
    forall i, j | 0 <= i < |a| && 0 <= j < |b| :: a[i].time != b[j].time || a[i].id != b[j].id
  }

  lemma ConsSorted(x: Row, s: seq<Row>, direction: Direction)
    requires Sorted(s, direction) && forall y | y in s :: Precedes(x, y, direction)
    ensures Sorted([x] + s, direction)
  {
  }

  /** A row that precedes the head of a sorted list precedes all of it. */
  lemma ThroughHead(x: Row, s: seq<Row>, direction: Direction)
    requires s != [] && Sorted(s, direction) && Precedes(x, s[0], direction)
    ensures forall y | y in s :: Precedes(x, y, direction)
  {
    forall i | 0 <= i < |s| ensures Precedes(x, s[i], direction) {
      if i > 0 { PrecedesIsStrictOrder(x, s[0], s[i], direction); }
    }
  }

  lemma HeadOff(x: Row, s: seq<Row>)
    ensures multiset([x] + s) == multiset{x} + multiset(s)
  {
  }

  lemma {:induction false} MergeKeepsRows(a: seq<Row>, b: seq<Row>, direction: Direction)
    ensures multiset(Merge(a, b, direction)) == multiset(a) + multiset(b)
    decreases |a| + |b|
  {
    if a == [] {
    } else if b == [] {
    } else if Precedes(a[0], b[0], direction) {
      MergeKeepsRows(a[1..], b, direction);
      HeadOff(a[0], Merge(a[1..], b, direction));
      HeadOff(a[0], a[1..]);
      assert a == [a[0]] + a[1..];
    } else {
      MergeKeepsRows(a, b[1..], direction);
      HeadOff(b[0], Merge(a, b[1..], direction));
      HeadOff(b[0], b[1..]);
      assert b == [b[0]] + b[1..];
    }
  }

  lemma Tail(s: seq<Row>, direction: Direction)
    requires s != [] && Sorted(s, direction)
    ensures Sorted(s[1..], direction) && forall y | y in s[1..] :: Precedes(s[0], y, direction)
  {
  }

  /** Put in front of a merge, a row that precedes both sides. */
  lemma PrependMerged(x: Row, s: seq<Row>, t: seq<Row>, direction: Direction)
    requires Sorted(Merge(s, t, direction), direction)
    requires (forall y | y in s :: Precedes(x, y, direction)) && (forall y | y in t :: Precedes(x, y, direction))
    ensures Sorted([x] + Merge(s, t, direction), direction)
  {
    var m := Merge(s, t, direction);
    MergeKeepsRows(s, t, direction);
    forall y | y in m ensures Precedes(x, y, direction) {
      assert y in multiset(m);
    }
    ConsSorted(x, m, direction);
  }

  lemma {:induction false} MergeSorts(a: seq<Row>, b: seq<Row>, direction: Direction)
    requires Sorted(a, direction) && Sorted(b, direction) && AllDiffer(a, b)
    ensures Sorted(Merge(a, b, direction), direction)
    decreases |a| + |b|
  {
    if a != [] && b != [] {
      PrecedesIsStrictOrder(a[0], b[0], a[0], direction);
      Tail(a, direction);
      Tail(b, direction);
      if Precedes(a[0], b[0], direction) {
        MergeSorts(a[1..], b, direction);
        ThroughHead(a[0], b, direction);
        PrependMerged(a[0], a[1..], b, direction);
      } else {
        MergeSorts(a, b[1..], direction);
        ThroughHead(b[0], a, direction);
        PrependMerged(b[0], a, b[1..], direction);
      }
    }
  }

  /** Sorting the join of two sorted tables is merging them. */
  lemma SortIsMerge(a: seq<Row>, b: seq<Row>, direction: Direction)
    requires Sorted(a, direction) && Sorted(b, direction) && AllDiffer(a, b)
    ensures Sort(a + b, direction) == Merge(a, b, direction)
  {
    forall i, j | 0 <= i < j < |a + b| ensures (a + b)[i].time != (a + b)[j].time || (a + b)[i].id != (a + b)[j].id {
      if j < |a| {
        PrecedesIsStrictOrder(a[i], a[i], a[i], direction);
        DifferWhenOrdered(a[i], a[j], direction);
      } else if i >= |a| {
        DifferWhenOrdered(b[i - |a|], b[j - |a|], direction);
      }
    }
    SortSorts(a + b, direction);
    MergeSorts(a, b, direction);
    MergeKeepsRows(a, b, direction);
    SortedIsUnique(Sort(a + b, direction), Merge(a, b, direction), direction);
  }

  lemma DifferWhenOrdered(x: Row, y: Row, direction: Direction)
    requires Precedes(x, y, direction)
    ensures x.time != y.time || x.id != y.id
  {
    Irreflexive(x.id);
  }

  lemma TakeCons(x: Row, s: seq<Row>, k: nat)
    ensures Take([x] + s, k + 1) == [x] + Take(s, k)
  {
  }

  lemma SameHead(s: seq<Row>, t: seq<Row>, k: nat)
    requires k > 0 && Take(s, k) == Take(t, k)
    ensures s == [] <==> t == []
    ensures s != [] ==> s[0] == t[0] && Take(s[1..], k - 1) == Take(t[1..], k - 1)
    ensures Take(s, k - 1) == Take(t, k - 1)
  {
    assert Take(s, k - 1) == Take(Take(s, k), k - 1) && Take(t, k - 1) == Take(Take(t, k), k - 1);
    if s != [] && t != [] {
      assert s[0] == Take(s, k)[0] && t[0] == Take(t, k)[0];
      assert Take(s[1..], k - 1) == Take(s, k)[1..] && Take(t[1..], k - 1) == Take(t, k)[1..];
    }
  }

  /** The first `k` rows of a merge depend on the first `k` rows of each side only. */
  lemma {:induction false} TakeMerge(a: seq<Row>, b: seq<Row>, a': seq<Row>, b': seq<Row>, direction: Direction, k: nat)
    requires Take(a, k) == Take(a', k) && Take(b, k) == Take(b', k)
    ensures Take(Merge(a, b, direction), k) == Take(Merge(a', b', direction), k)
    decreases k
  {
    if k > 0 {
      SameHead(a, a', k);
      SameHead(b, b', k);
      if a != [] && b != [] {
        if Precedes(a[0], b[0], direction) {
          TakeMerge(a[1..], b, a'[1..], b', direction, k - 1);
          TakeCons(a[0], Merge(a[1..], b, direction), k - 1);
          TakeCons(a[0], Merge(a'[1..], b', direction), k - 1);
        } else {
          TakeMerge(a, b[1..], a', b'[1..], direction, k - 1);
          TakeCons(b[0], Merge(a, b[1..], direction), k - 1);
          TakeCons(b[0], Merge(a', b'[1..], direction), k - 1);
        }
      }
    }
  }

  lemma SliceOfTake(s: seq<Row>, t: seq<Row>, skip: nat, limit: nat)
    requires Take(s, skip + limit) == Take(t, skip + limit)
    ensures Slice(s, skip, limit) == Slice(t, skip, limit)
  {
    assert Slice(s, skip, limit) == Slice(Take(s, skip + limit), skip, limit);
    assert Slice(t, skip, limit) == Slice(Take(t, skip + limit), skip, limit);
  }

  lemma FlatOfTwo(a: seq<Row>, b: seq<Row>)
    ensures Flat([a, b]) == a + b
  {
    assert [a, b][1..] == [b] && [b][1..] == [];
    assert Flat([b]) == b + Flat([]);
  }

  lemma TakeSorted(s: seq<Row>, direction: Direction, k: nat)
    requires Sorted(s, direction)
    ensures Sorted(Take(s, k), direction)
  {
  }

  /** For tables that are sorted already: merge the heads, cut the window. */
  lemma MergedWindow(s: seq<Row>, t: seq<Row>, direction: Direction, skip: nat, limit: nat)
    requires Sorted(s, direction) && Sorted(t, direction) && AllDiffer(s, t)
    ensures MergePaymentPage([Take(s, skip + limit), Take(t, skip + limit)], direction, skip, limit)
         == Slice(Sort(s + t, direction), skip, limit)
  {
    var k := skip + limit;
    var s', t' := Take(s, k), Take(t, k);
    TakeSorted(s, direction, k);
    TakeSorted(t, direction, k);
    FlatOfTwo(s', t');
    SortIsMerge(s, t, direction);
    SortIsMerge(s', t', direction);
    assert Take(s', k) == Take(s, k) && Take(t', k) == Take(t, k);
    TakeMerge(s', t', s, t, direction, k);
    SliceOfTake(Merge(s', t', direction), Merge(s, t, direction), skip, limit);
  }

  /** Merging the first skip + limit rows of each sorted table and cutting gives exactly that window of
      the sorted union, in both directions. */
  lemma TopKMergeIsThePage(a: seq<Row>, b: seq<Row>, direction: Direction, skip: nat, limit: nat)
    requires Distinct(a + b)
    ensures var k := skip + limit;
            MergePaymentPage([Take(Sort(a, direction), k), Take(Sort(b, direction), k)], direction, skip, limit)
            == Slice(Sort(a + b, direction), skip, limit)
  {
    DistinctParts(a, b);
    SortSorts(a, direction);
    SortSorts(b, direction);
    SortedTablesDiffer(a, b, Sort(a, direction), Sort(b, direction));
    UnionSortsAlike(a, b, direction);
    MergedWindow(Sort(a, direction), Sort(b, direction), direction, skip, limit);
  }

  lemma DistinctParts(a: seq<Row>, b: seq<Row>)
    requires Distinct(a + b)
    ensures Distinct(a) && Distinct(b)
  {
    assert forall i | 0 <= i < |a| :: (a + b)[i] == a[i];
    assert forall i | 0 <= i < |b| :: (a + b)[|a| + i] == b[i];
  }

  lemma SortedTablesDiffer(a: seq<Row>, b: seq<Row>, s: seq<Row>, t: seq<Row>)
    requires Distinct(a + b) && multiset(s) == multiset(a) && multiset(t) == multiset(b)
    ensures AllDiffer(s, t)
  {
    forall i, j | 0 <= i < |s| && 0 <= j < |t| ensures s[i].time != t[j].time || s[i].id != t[j].id {
      assert s[i] in multiset(s) && t[j] in multiset(t);
      assert s[i] in a && t[j] in b;
      var p :| 0 <= p < |a| && a[p] == s[i];
      var q :| 0 <= q < |b| && b[q] == t[j];
      assert (a + b)[p] == a[p] && (a + b)[|a| + q] == b[q];
    }
  }

  lemma UnionSortsAlike(a: seq<Row>, b: seq<Row>, direction: Direction)
    requires Distinct(a + b) && Distinct(a) && Distinct(b)
    ensures Sort(Sort(a, direction) + Sort(b, direction), direction) == Sort(a + b, direction)
  {
    SortSorts(a, direction);
    SortSorts(b, direction);
    var s, t := Sort(a, direction), Sort(b, direction);
    SortedTablesDiffer(a, b, s, t);
    SortIsMerge(s, t, direction);
    MergeSorts(s, t, direction);
    MergeKeepsRows(s, t, direction);
    SortSorts(a + b, direction);
    assert multiset(a + b) == multiset(a) + multiset(b);
    SortedIsUnique(Sort(s + t, direction), Sort(a + b, direction), direction);
  }

  // ---- the list of payments ---------------------------------------------------------------------

  const MAX_MERGE_WINDOW := 5000

  function Clamp(low: int, x: int, high: int): int { if x < low then low else if x > high then high else x }

  /** Page and limit as they are used: from 1 on, and from 1 to 100. */
  function PageNumber(page: Option<int>): (r: nat)
    ensures r >= 1
  {
    if page.Some? && page.value > 1 then page.value else 1
  }

  function PageLimit(limit: Option<int>): (r: nat)
    ensures 1 <= r <= 100
  {
    Clamp(1, if limit.Some? then limit.value else 20, 100)
  }

  predicate Wanted(kind: PaymentType, rentAllowed: bool, electricityAllowed: bool, asked: Option<PaymentType>) {
    (if kind == RENT then rentAllowed else electricityAllowed) && (asked == None || asked == Some(kind))
  }

  /** What the list is a list of: the rows of the tables the client may see and asked for. */
  function Selected(rent: seq<Row>, electricity: seq<Row>, withRent: bool, withElectricity: bool): seq<Row> {
    (if withRent then rent else []) + (if withElectricity then electricity else [])
  }

  /** One table is paged by the database; two are read from the top and merged. */
  function Window(rent: seq<Row>, electricity: seq<Row>, withRent: bool, withElectricity: bool, skip: nat, size: nat,
                  direction: Direction): seq<Row> {
    var single := withRent != withElectricity;
    var take := if single then size else skip + size;
    var offset := if single then skip else 0;
    var rentItems := if withRent then Slice(Sort(rent, direction), offset, take) else [];
    var electricityItems := if withElectricity then Slice(Sort(electricity, direction), offset, take) else [];
    if single then rentItems + electricityItems
    else MergePaymentPage([rentItems, electricityItems], direction, skip, size)
  }

  function Skip(page: Option<int>, limit: Option<int>): nat { (PageNumber(page) - 1) * PageLimit(limit) }

  function FindAll(rent: seq<Row>, electricity: seq<Row>, rentAllowed: bool, electricityAllowed: bool,
                   asked: Option<PaymentType>,
                   page: Option<int>, limit: Option<int>, direction: Direction): Result<seq<Row>> {
    var withRent := Wanted(RENT, rentAllowed, electricityAllowed, asked);
    var withElectricity := Wanted(ELECTRICITY, rentAllowed, electricityAllowed, asked);
    var skip, size := Skip(page, limit), PageLimit(limit);
    if !withRent && !withElectricity then Err("no permission to see these payments")
    else if withRent && withElectricity && skip + size > MAX_MERGE_WINDOW then Err("page is too deep")
    else Ok(Window(rent, electricity, withRent, withElectricity, skip, size, direction))
  }

  lemma MergedWindowIsSlice(rent: seq<Row>, electricity: seq<Row>, skip: nat, size: nat, direction: Direction)
    requires Distinct(rent + electricity)
    ensures Window(rent, electricity, true, true, skip, size, direction) == Slice(Sort(rent + electricity, direction), skip, size)
  {
    TopKMergeIsThePage(rent, electricity, direction, skip, size);
    SliceFromTop(Sort(rent, direction), skip + size);
    SliceFromTop(Sort(electricity, direction), skip + size);
  }

  lemma SliceFromTop(s: seq<Row>, k: nat)
    ensures Slice(s, 0, k) == Take(s, k)
  {
  }

  lemma SingleWindowIsSlice(rent: seq<Row>, electricity: seq<Row>, withRent: bool, skip: nat, size: nat,
                            direction: Direction)
    ensures Window(rent, electricity, withRent, !withRent, skip, size, direction)
         == Slice(Sort(if withRent then rent else electricity, direction), skip, size)
  {
  }

  lemma WindowIsSlice(rent: seq<Row>, electricity: seq<Row>, withRent: bool, withElectricity: bool, skip: nat,
                      size: nat, direction: Direction)
    requires Distinct(rent + electricity) && (withRent || withElectricity)
    ensures Window(rent, electricity, withRent, withElectricity, skip, size, direction)
         == Slice(Sort(Selected(rent, electricity, withRent, withElectricity), direction), skip, size)
  {
    if withRent && withElectricity {
      MergedWindowIsSlice(rent, electricity, skip, size, direction);
    } else {
      SingleWindowIsSlice(rent, electricity, withRent, skip, size, direction);
      assert Selected(rent, electricity, withRent, withElectricity) == if withRent then rent else electricity;
    }
  }

  /** A page that is given is that window of the sorted union of the tables asked for; a page is given
      exactly when some table is visible and, for two tables, the window is not too deep. */
  lemma FindAllIsAWindow(rent: seq<Row>, electricity: seq<Row>, rentAllowed: bool, electricityAllowed: bool,
                         asked: Option<PaymentType>,
                         page: Option<int>, limit: Option<int>, direction: Direction)
    requires Distinct(rent + electricity)
    ensures var r := FindAll(rent, electricity, rentAllowed, electricityAllowed, asked, page, limit, direction);
            var withRent := Wanted(RENT, rentAllowed, electricityAllowed, asked);
            var withElectricity := Wanted(ELECTRICITY, rentAllowed, electricityAllowed, asked);
            && (r.Ok? <==> (withRent != withElectricity)
                           || (withRent && withElectricity && Skip(page, limit) + PageLimit(limit) <= MAX_MERGE_WINDOW))
            && (r.Ok? ==> r.value == Slice(Sort(Selected(rent, electricity, withRent, withElectricity), direction),
                                           Skip(page, limit), PageLimit(limit)))
  {
    var withRent := Wanted(RENT, rentAllowed, electricityAllowed, asked);
    var withElectricity := Wanted(ELECTRICITY, rentAllowed, electricityAllowed, asked);
    if withRent || withElectricity {
      WindowIsSlice(rent, electricity, withRent, withElectricity, Skip(page, limit), PageLimit(limit), direction);
    }
  }

  /** The first `n` pages of a list, one after the other. */
  function Slices(s: seq<Row>, size: nat, n: nat): seq<Row> {
    if n == 0 then [] else Slices(s, size, n - 1) + Slice(s, (n - 1) * size, size)
  }

  lemma OneMoreSlice(s: seq<Row>, k: nat, size: nat)
    ensures Take(s, k + size) == Take(s, k) + Slice(s, k, size)
  {
  }

  lemma PagesBefore(size: nat, n: nat) returns (k: nat)
    requires n > 0
    ensures k == (n - 1) * size && k + size == n * size
  {
    k := (n - 1) * size;
  }

  lemma {:induction false} SlicesConcatenate(s: seq<Row>, size: nat, n: nat)
    requires size > 0
    ensures Slices(s, size, n) == Take(s, n * size)
  {
    if n > 0 {
      SlicesConcatenate(s, size, n - 1);
      var k := PagesBefore(size, n);
      OneMoreSlice(s, k, size);
    }
  }

  /** What a client gathers who asks for the pages 1 to `n` with the same limit, or the first refusal. */
  function GatherPages(rent: seq<Row>, electricity: seq<Row>, rentAllowed: bool, electricityAllowed: bool,
                       asked: Option<PaymentType>,
                       limit: Option<int>, direction: Direction, n: nat): Result<seq<Row>> {
    if n == 0 then Ok([])
    else
      match GatherPages(rent, electricity, rentAllowed, electricityAllowed, asked, limit, direction, n - 1)
      case Err(reason) => Err(reason)
      case Ok(before) =>
        match FindAll(rent, electricity, rentAllowed, electricityAllowed, asked, Some(n), limit, direction)
        case Err(reason) => Err(reason)
        case Ok(rows) => Ok(before + rows)
  }

  lemma WindowEnds(limit: Option<int>, n: nat)
    requires n > 0
    ensures Skip(Some(n), limit) == (n - 1) * PageLimit(limit)
    ensures Skip(Some(n), limit) + PageLimit(limit) == n * PageLimit(limit)
  {
  }

  /** The pages 1 to `n` are all given exactly when one table is listed, or two and the last window is
      not too deep; together they are the first rows of the sorted union. */
  lemma {:induction false} GatheredIsPrefix(rent: seq<Row>, electricity: seq<Row>, rentAllowed: bool,
                                            electricityAllowed: bool,
                                            asked: Option<PaymentType>, limit: Option<int>, direction: Direction,
                                            n: nat)
    requires Distinct(rent + electricity) && n > 0
    ensures var r := GatherPages(rent, electricity, rentAllowed, electricityAllowed, asked, limit, direction, n);
            var withRent := Wanted(RENT, rentAllowed, electricityAllowed, asked);
            var withElectricity := Wanted(ELECTRICITY, rentAllowed, electricityAllowed, asked);
            && (r.Ok? <==> withRent != withElectricity || (withRent && withElectricity && n * PageLimit(limit) <= MAX_MERGE_WINDOW))
            && (r.Ok? ==> r.value == Slices(Sort(Selected(rent, electricity, withRent, withElectricity), direction), PageLimit(limit), n))
  {
    FindAllIsAWindow(rent, electricity, rentAllowed, electricityAllowed, asked, Some(n), limit, direction);
    WindowEnds(limit, n);
    if n > 1 {
      GatheredIsPrefix(rent, electricity, rentAllowed, electricityAllowed, asked, limit, direction, n - 1);
      assert (n - 1) * PageLimit(limit) <= n * PageLimit(limit);
    } else {
      var r := FindAll(rent, electricity, rentAllowed, electricityAllowed, asked, Some(1), limit, direction);
      assert GatherPages(rent, electricity, rentAllowed, electricityAllowed, asked, limit, direction, 0) == Ok([]);
      assert r.Ok? ==> [] + r.value == r.value;
    }
  }

  lemma SortKeepsLength(rows: seq<Row>, direction: Direction)
    requires Distinct(rows)
    ensures |Sort(rows, direction)| == |rows|
  {
    SortSorts(rows, direction);
    assert |multiset(Sort(rows, direction))| == |multiset(rows)|;
  }

  lemma SelectedDistinct(rent: seq<Row>, electricity: seq<Row>, withRent: bool, withElectricity: bool)
    requires Distinct(rent + electricity)
    ensures Distinct(Selected(rent, electricity, withRent, withElectricity))
  {
    DistinctParts(rent, electricity);
    assert rent + [] == rent && [] + electricity == electricity;
  }

  /** Asking page after page reproduces the sorted union of the tables listed, with no loss and no
      repeat, if and only if the pages cover it and no page is too deep: a list of two tables can be
      read in full only as far as the merge window reaches. */
  lemma PagesReproduceTheList(rent: seq<Row>, electricity: seq<Row>, rentAllowed: bool, electricityAllowed: bool,
                              asked: Option<PaymentType>, limit: Option<int>, direction: Direction, n: nat)
    requires Distinct(rent + electricity) && n > 0
    ensures var withRent := Wanted(RENT, rentAllowed, electricityAllowed, asked);
            var withElectricity := Wanted(ELECTRICITY, rentAllowed, electricityAllowed, asked);
            var listed := Selected(rent, electricity, withRent, withElectricity);
            GatherPages(rent, electricity, rentAllowed, electricityAllowed, asked, limit, direction, n) == Ok(Sort(listed, direction))
            <==> (withRent || withElectricity) && |listed| <= n * PageLimit(limit)
                 && (withRent && withElectricity ==> n * PageLimit(limit) <= MAX_MERGE_WINDOW)
  {
    var withRent := Wanted(RENT, rentAllowed, electricityAllowed, asked);
    var withElectricity := Wanted(ELECTRICITY, rentAllowed, electricityAllowed, asked);
    var listed := Selected(rent, electricity, withRent, withElectricity);
    var s := Sort(listed, direction);
    GatheredIsPrefix(rent, electricity, rentAllowed, electricityAllowed, asked, limit, direction, n);
    SlicesConcatenate(s, PageLimit(limit), n);
    SelectedDistinct(rent, electricity, withRent, withElectricity);
    SortKeepsLength(listed, direction);
    assert Take(s, n * PageLimit(limit)) == s <==> |s| <= n * PageLimit(limit);
  }

  /** A list of two tables with more rows than the window cannot be read in full, however many pages are
      asked for and however large they are. */
  lemma LongListsCannotBeReadInFull(rent: seq<Row>, electricity: seq<Row>, limit: Option<int>, direction: Direction,
                                    n: nat)
    requires Distinct(rent + electricity) && n > 0 && |rent| + |electricity| > MAX_MERGE_WINDOW
    ensures GatherPages(rent, electricity, true, true, None, limit, direction, n) != Ok(Sort(rent + electricity, direction))
  {
    PagesReproduceTheList(rent, electricity, true, true, None, limit, direction, n);
  }

  // ---- what was asked for ---------------------------------------------------------------------------

  /** Each table holds rows of its own kind. */
  ghost predicate OfKind(rows: seq<Row>, kind: PaymentType) { forall r | r in rows :: r.kind == kind }

  /** The client may see payments of this kind, and asked for it or for no kind. */
  ghost predicate Shown(kind: PaymentType, rentAllowed: bool, electricityAllowed: bool, asked: Option<PaymentType>) {
    && (match kind case RENT => rentAllowed case ELECTRICITY => electricityAllowed)
    && (match asked case None => true case Some(k) => k == kind)
  }

  /** The rows of a list that are to be shown. */
  ghost function RowsShown(rows: seq<Row>, rentAllowed: bool, electricityAllowed: bool, asked: Option<PaymentType>): seq<Row> {
    if rows == [] then []
    else
      var last := rows[|rows| - 1];
      RowsShown(rows[..|rows| - 1], rentAllowed, electricityAllowed, asked)
      + (if Shown(last.kind, rentAllowed, electricityAllowed, asked) then [last] else [])
  }

  /** The rows of a page: the number asked for, but 1 to 100 and 20 if none is. */
  ghost predicate IsPageSize(limit: Option<int>, size: int) {
    match limit
    case None => size == 20
    case Some(n) => if n < 1 then size == 1 else if n > 100 then size == 100 else size == n
  }

  ghost predicate IsPageNumber(page: Option<int>, number: int) {
    match page
    case None => number == 1
    case Some(n) => if n < 1 then number == 1 else number == n
  }

  lemma {:induction false} ShownOfTable(rows: seq<Row>, kind: PaymentType, rentAllowed: bool, electricityAllowed: bool,
                                        asked: Option<PaymentType>)
    requires OfKind(rows, kind)
    ensures RowsShown(rows, rentAllowed, electricityAllowed, asked)
         == if Shown(kind, rentAllowed, electricityAllowed, asked) then rows else []
  {
    if rows != [] {
      var init, last := rows[..|rows| - 1], rows[|rows| - 1];
      assert rows == init + [last];
      ShownOfTable(init, kind, rentAllowed, electricityAllowed, asked);
    }
  }

  lemma {:induction false} ShownOfConcat(a: seq<Row>, b: seq<Row>, rentAllowed: bool, electricityAllowed: bool,
                                         asked: Option<PaymentType>)
    ensures RowsShown(a + b, rentAllowed, electricityAllowed, asked)
         == RowsShown(a, rentAllowed, electricityAllowed, asked) + RowsShown(b, rentAllowed, electricityAllowed, asked)
  {
    if b == [] {
      assert a + b == a;
    } else {
      assert (a + b)[..|a + b| - 1] == a + b[..|b| - 1];
      ShownOfConcat(a, b[..|b| - 1], rentAllowed, electricityAllowed, asked);
    }
  }

  lemma {:induction false} ShownAreAskedFor(rows: seq<Row>, rentAllowed: bool, electricityAllowed: bool,
                                            asked: Option<PaymentType>, r: Row)
    ensures r in RowsShown(rows, rentAllowed, electricityAllowed, asked)
            <==> r in rows && Shown(r.kind, rentAllowed, electricityAllowed, asked)
  {
    if rows != [] {
      var init, last := rows[..|rows| - 1], rows[|rows| - 1];
      assert rows == init + [last];
      ShownAreAskedFor(init, rentAllowed, electricityAllowed, asked, r);
    }
  }

  lemma SelectedIsShown(rent: seq<Row>, electricity: seq<Row>, rentAllowed: bool, electricityAllowed: bool,
                        asked: Option<PaymentType>)
    requires OfKind(rent, RENT) && OfKind(electricity, ELECTRICITY)
    ensures Selected(rent, electricity, Wanted(RENT, rentAllowed, electricityAllowed, asked),
                     Wanted(ELECTRICITY, rentAllowed, electricityAllowed, asked))
         == RowsShown(rent + electricity, rentAllowed, electricityAllowed, asked)
  {
    ShownOfConcat(rent, electricity, rentAllowed, electricityAllowed, asked);
    ShownOfTable(rent, RENT, rentAllowed, electricityAllowed, asked);
    ShownOfTable(electricity, ELECTRICITY, rentAllowed, electricityAllowed, asked);
  }

  /** When the list may be read at all, and how deep: a kind that is asked for must be allowed; without one,
      some kind must be, and if both are the page must end within the merge window. */
  ghost predicate MayRead(rentAllowed: bool, electricityAllowed: bool, asked: Option<PaymentType>, depth: int) {
    match asked
    case Some(RENT) => rentAllowed
    case Some(ELECTRICITY) => electricityAllowed
    case None => (rentAllowed || electricityAllowed) && (rentAllowed && electricityAllowed ==> depth <= 5000)
  }

  lemma ReadableIsWanted(rentAllowed: bool, electricityAllowed: bool, asked: Option<PaymentType>, depth: int)
    ensures var withRent := Wanted(RENT, rentAllowed, electricityAllowed, asked);
            var withElectricity := Wanted(ELECTRICITY, rentAllowed, electricityAllowed, asked);
            MayRead(rentAllowed, electricityAllowed, asked, depth)
            <==> withRent != withElectricity || (withRent && withElectricity && depth <= MAX_MERGE_WINDOW)
  {
  }

  lemma SliceIsInside(s: seq<Row>, skip: nat, limit: nat)
    ensures |Slice(s, skip, limit)| <= limit && forall r | r in Slice(s, skip, limit) :: r in s
  {
  }

  lemma PageIs(rent: seq<Row>, electricity: seq<Row>, rentAllowed: bool, electricityAllowed: bool,
               asked: Option<PaymentType>, page: Option<int>, limit: Option<int>, direction: Direction)
    requires Distinct(rent + electricity) && OfKind(rent, RENT) && OfKind(electricity, ELECTRICITY)
    ensures var r := FindAll(rent, electricity, rentAllowed, electricityAllowed, asked, page, limit, direction);
            && (r.Ok? <==> MayRead(rentAllowed, electricityAllowed, asked, Skip(page, limit) + PageLimit(limit)))
            && (r.Ok? ==> r.value == Slice(Sort(RowsShown(rent + electricity, rentAllowed, electricityAllowed, asked), direction),
                                           Skip(page, limit), PageLimit(limit)))
  {
    FindAllIsAWindow(rent, electricity, rentAllowed, electricityAllowed, asked, page, limit, direction);
    SelectedIsShown(rent, electricity, rentAllowed, electricityAllowed, asked);
    ReadableIsWanted(rentAllowed, electricityAllowed, asked, Skip(page, limit) + PageLimit(limit));
  }

  lemma PageEnds(page: Option<int>, limit: Option<int>) returns (number: nat, size: nat)
    ensures IsPageNumber(page, number) && IsPageSize(limit, size) && number >= 1 && size >= 1
    ensures size == PageLimit(limit) && Skip(page, limit) == (number - 1) * size
    ensures Skip(page, limit) + PageLimit(limit) == number * size
  {
    number, size := PageNumber(page), PageLimit(limit);
    assert (number - 1) * size + size == number * size;
  }

  /** A page is given exactly when the list may be read that deep. It is then the window of that number and
      size of the sorted rows that may be seen and are asked for, and shows no row of another kind. */
  lemma PagesShowWhatIsAskedFor(rent: seq<Row>, electricity: seq<Row>, rentAllowed: bool, electricityAllowed: bool,
                                asked: Option<PaymentType>, page: Option<int>, limit: Option<int>, direction: Direction)
    returns (number: nat, size: nat)
    requires Distinct(rent + electricity) && OfKind(rent, RENT) && OfKind(electricity, ELECTRICITY)
    ensures IsPageNumber(page, number) && IsPageSize(limit, size) && number >= 1 && size >= 1
    ensures var r := FindAll(rent, electricity, rentAllowed, electricityAllowed, asked, page, limit, direction);
            && (r.Ok? <==> MayRead(rentAllowed, electricityAllowed, asked, number * size))
            && (r.Ok? ==>
                  && r.value == Slice(Sort(RowsShown(rent + electricity, rentAllowed, electricityAllowed, asked), direction),
                                      (number - 1) * size, size)
                  && |r.value| <= size
                  && forall row | row in r.value ::
                       row in rent + electricity && Shown(row.kind, rentAllowed, electricityAllowed, asked))
  {
    number, size := PageEnds(page, limit);
    PageIs(rent, electricity, rentAllowed, electricityAllowed, asked, page, limit, direction);
    WindowShows(rent, electricity, rentAllowed, electricityAllowed, asked, Skip(page, limit), size, direction);
  }

  lemma WindowShows(rent: seq<Row>, electricity: seq<Row>, rentAllowed: bool, electricityAllowed: bool,
                    asked: Option<PaymentType>, skip: nat, size: nat, direction: Direction)
    requires Distinct(rent + electricity) && OfKind(rent, RENT) && OfKind(electricity, ELECTRICITY)
    ensures var shown := RowsShown(rent + electricity, rentAllowed, electricityAllowed, asked);
            && |Slice(Sort(shown, direction), skip, size)| <= size
            && forall row | row in Slice(Sort(shown, direction), skip, size) ::
                 row in rent + electricity && Shown(row.kind, rentAllowed, electricityAllowed, asked)
  {
    var shown := RowsShown(rent + electricity, rentAllowed, electricityAllowed, asked);
    SelectedIsShown(rent, electricity, rentAllowed, electricityAllowed, asked);
    SelectedDistinct(rent, electricity, Wanted(RENT, rentAllowed, electricityAllowed, asked),
                     Wanted(ELECTRICITY, rentAllowed, electricityAllowed, asked));
    SortSorts(shown, direction);
    SliceIsInside(Sort(shown, direction), skip, size);
    forall row | row in Slice(Sort(shown, direction), skip, size)
      ensures row in rent + electricity && Shown(row.kind, rentAllowed, electricityAllowed, asked)
    {
      assert row in multiset(Sort(shown, direction));
      assert row in shown;
      ShownAreAskedFor(rent + electricity, rentAllowed, electricityAllowed, asked, row);
    }
  }

  lemma GatheredIs(rent: seq<Row>, electricity: seq<Row>, rentAllowed: bool, electricityAllowed: bool,
                   asked: Option<PaymentType>, limit: Option<int>, direction: Direction, n: nat, depth: nat)
    requires Distinct(rent + electricity) && OfKind(rent, RENT) && OfKind(electricity, ELECTRICITY) && n > 0
    requires depth == n * PageLimit(limit)
    ensures var shown := RowsShown(rent + electricity, rentAllowed, electricityAllowed, asked);
            GatherPages(rent, electricity, rentAllowed, electricityAllowed, asked, limit, direction, n) == Ok(Sort(shown, direction))
            <==> MayRead(rentAllowed, electricityAllowed, asked, depth) && |shown| <= depth
  {
    SelectedIsShown(rent, electricity, rentAllowed, electricityAllowed, asked);
    ReadableIsWanted(rentAllowed, electricityAllowed, asked, depth);
    PagesReproduceTheList(rent, electricity, rentAllowed, electricityAllowed, asked, limit, direction, n);
  }

  lemma SortedShown(rent: seq<Row>, electricity: seq<Row>, rentAllowed: bool, electricityAllowed: bool,
                    asked: Option<PaymentType>, direction: Direction, row: Row)
    requires Distinct(rent + electricity) && OfKind(rent, RENT) && OfKind(electricity, ELECTRICITY)
    ensures var s := Sort(RowsShown(rent + electricity, rentAllowed, electricityAllowed, asked), direction);
            && Sorted(s, direction)
            && (row in s <==> row in rent + electricity && Shown(row.kind, rentAllowed, electricityAllowed, asked))
  {
    var shown := RowsShown(rent + electricity, rentAllowed, electricityAllowed, asked);
    SelectedIsShown(rent, electricity, rentAllowed, electricityAllowed, asked);
    SelectedDistinct(rent, electricity, Wanted(RENT, rentAllowed, electricityAllowed, asked),
                     Wanted(ELECTRICITY, rentAllowed, electricityAllowed, asked));
    SortSorts(shown, direction);
    assert row in Sort(shown, direction) <==> row in multiset(Sort(shown, direction));
    ShownAreAskedFor(rent + electricity, rentAllowed, electricityAllowed, asked, row);
  }

  /** Pages one to `n` give the whole list exactly when it may be read that deep and they are enough for it.
      They then hold, in order, a row of the two tables exactly when it may be seen and its kind is asked for
      or none is. */
  lemma GatheredPagesShowEverything(rent: seq<Row>, electricity: seq<Row>, rentAllowed: bool, electricityAllowed: bool,
                                    asked: Option<PaymentType>, limit: Option<int>, direction: Direction, n: nat)
    returns (list: seq<Row>, size: nat)
    requires Distinct(rent + electricity) && OfKind(rent, RENT) && OfKind(electricity, ELECTRICITY) && n > 0
    ensures IsPageSize(limit, size)
    ensures Sorted(list, direction)
    ensures forall row :: row in list <==> row in rent + electricity && Shown(row.kind, rentAllowed, electricityAllowed, asked)
    ensures GatherPages(rent, electricity, rentAllowed, electricityAllowed, asked, limit, direction, n) == Ok(list)
            <==> MayRead(rentAllowed, electricityAllowed, asked, n * size) && |list| <= n * size
  {
    size := PageLimit(limit);
    var shown := RowsShown(rent + electricity, rentAllowed, electricityAllowed, asked);
    list := Sort(shown, direction);
    GatheredIs(rent, electricity, rentAllowed, electricityAllowed, asked, limit, direction, n, n * size);
    SelectedIsShown(rent, electricity, rentAllowed, electricityAllowed, asked);
    SelectedDistinct(rent, electricity, Wanted(RENT, rentAllowed, electricityAllowed, asked),
                     Wanted(ELECTRICITY, rentAllowed, electricityAllowed, asked));
    SortKeepsLength(shown, direction);
    forall row
      ensures Sorted(list, direction)
      ensures row in list <==> row in rent + electricity && Shown(row.kind, rentAllowed, electricityAllowed, asked)
    {
      SortedShown(rent, electricity, rentAllowed, electricityAllowed, asked, direction, row);
    }
    SortSorts(shown, direction);
  }

  // ---- totals by currency -----------------------------------------------------------------------

  /** One group of a grouped query; the sum of no rows is null. */
  datatype CurrencyGroup = CurrencyGroup(currency: string, amount: Option<real>, count: nat)

  datatype Totals = Totals(amount: real, count: nat)

  ghost function AmountOf(rows: seq<Row>, currency: string): real {
    if rows == [] then 0.0
    else AmountOf(rows[..|rows| - 1], currency) + (if rows[|rows| - 1].currency == currency then rows[|rows| - 1].amount else 0.0)
  }

  ghost function CountOf(rows: seq<Row>, currency: string): nat {
    if rows == [] then 0
    else CountOf(rows[..|rows| - 1], currency) + (if rows[|rows| - 1].currency == currency then 1 else 0)
  }

  ghost function GroupTotals(groups: seq<CurrencyGroup>, currency: string): Totals {
    if groups == [] then Totals(0.0, 0)
    else
      var before, last := GroupTotals(groups[..|groups| - 1], currency), groups[|groups| - 1];
      if last.currency != currency then before
      else Totals(before.amount + (if last.amount.Some? then last.amount.value else 0.0), before.count + last.count)
  }

  /** The groups of a table: each is the sum and count of the rows of its currency, none is missing. */
  ghost predicate GroupsOf(groups: seq<CurrencyGroup>, rows: seq<Row>) {
    forall c :: GroupTotals(groups, c) == Totals(AmountOf(rows, c), CountOf(rows, c))
  }

  /** The accumulating loop; currencies are never added to one another. */
  method MergeCurrencySummary(groups: seq<CurrencyGroup>) returns (byCurrency: map<string, Totals>)
    ensures forall c :: c in byCurrency <==> exists g | g in groups :: g.currency == c
    ensures forall c | c in byCurrency :: byCurrency[c] == GroupTotals(groups, c)
  {
    byCurrency := map[];
    for i := 0 to |groups|
      invariant forall c :: c in byCurrency <==> exists g | g in groups[..i] :: g.currency == c
      invariant forall c :: (if c in byCurrency then byCurrency[c] else Totals(0.0, 0)) == GroupTotals(groups[..i], c)
    {
      var g := groups[i];
      assert groups[..i + 1] == groups[..i] + [g];
      var entry := if g.currency in byCurrency then byCurrency[g.currency] else Totals(0.0, 0);
      byCurrency := byCurrency[g.currency := Totals(entry.amount + (if g.amount.Some? then g.amount.value else 0.0), entry.count + g.count)];
    }
    assert groups[..|groups|] == groups;
  }

  lemma {:induction false} TotalsOfConcat(a: seq<CurrencyGroup>, b: seq<CurrencyGroup>, c: string)
    ensures var x, y := GroupTotals(a, c), GroupTotals(b, c);
            GroupTotals(a + b, c) == Totals(x.amount + y.amount, x.count + y.count)
  {
    if b == [] {
      assert a + b == a;
    } else {
      assert (a + b)[..|a + b| - 1] == a + b[..|b| - 1];
      TotalsOfConcat(a, b[..|b| - 1], c);
    }
  }

  lemma {:induction false} SumsOfConcat(a: seq<Row>, b: seq<Row>, c: string)
    ensures AmountOf(a + b, c) == AmountOf(a, c) + AmountOf(b, c) && CountOf(a + b, c) == CountOf(a, c) + CountOf(b, c)
  {
    if b == [] {
      assert a + b == a;
    } else {
      assert (a + b)[..|a + b| - 1] == a + b[..|b| - 1];
      SumsOfConcat(a, b[..|b| - 1], c);
    }
  }

  /** The summary counts every row of both tables, in its own currency. */
  lemma SummaryCoversBothTables(rentGroups: seq<CurrencyGroup>, rent: seq<Row>, electricityGroups: seq<CurrencyGroup>,
                                electricity: seq<Row>)
    requires GroupsOf(rentGroups, rent) && GroupsOf(electricityGroups, electricity)
    ensures GroupsOf(rentGroups + electricityGroups, rent + electricity)
  {
    forall c ensures GroupTotals(rentGroups + electricityGroups, c) == Totals(AmountOf(rent + electricity, c), CountOf(rent + electricity, c)) {
      TotalsOfConcat(rentGroups, electricityGroups, c);
      SumsOfConcat(rent, electricity, c);
    }
  }
}
