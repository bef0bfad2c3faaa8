/** The `countries` table as a value, and what each statement of the service does
    to it: the case-insensitive lookup, the upsert, the batch of upserts one
    refresh runs, the delete, and the top-by-GDP read. The class in
    CountryService applies these to its state; the lemmas here are what the
    refresh, delete and read operations can be relied on for. */
module CountryTable {
  import opened JsValues
  import opened Text
  import opened CountryRecord
  import opened ImageService

  /** A value of the database clock `NOW()`. */
  type DbTime = nat

  /** A row of `countries`; `id` is the auto-increment key. */
  datatype Row = Row(
    id: nat,
    name: string,
    capital: Option<string>,
    region: Option<string>,
    population: int,
    currencyCode: Option<string>,
    exchangeRate: Option<real>,
    estimatedGdp: Option<real>,
    flagUrl: Option<string>,
    lastRefreshedAt: DbTime,
    createdAt: DbTime)

  /** The table's rows in storage order, and the next auto-increment value. */
  datatype Table = Table(rows: seq<Row>, nextId: nat)

  /** The empty table the migration creates. */
  const EmptyTable := Table([], 1)

  /** `LOWER(a) = LOWER(b)`. */
  predicate SameName(a: string, b: string)
  {
    Lower(a) == Lower(b)
  }

  /** Some row's name equals `name` ignoring case. */
  predicate HasName(rows: seq<Row>, name: string)
  {
    exists i :: 0 <= i < |rows| && SameName(rows[i].name, name)
  }

  /** No two rows share a lower-cased name (the UNIQUE key on `name` under a
      case-insensitive collation). */
  predicate UniqueNames(rows: seq<Row>)
  {
    forall i, j :: 0 <= i < j < |rows| ==> !SameName(rows[i].name, rows[j].name)
  }

  /** The table invariant: unique names, distinct ids, every id already issued. */
  predicate TableValid(t: Table)
  {
    && UniqueNames(t.rows)
    && (forall i :: 0 <= i < |t.rows| ==> t.rows[i].id < t.nextId)
    && (forall i, j :: 0 <= i < j < |t.rows| ==> t.rows[i].id != t.rows[j].id)
  }

  /** `SELECT ... WHERE LOWER(name) = LOWER(?)`, first match in storage order. */
  function FindByName(rows: seq<Row>, name: string): (r: Option<nat>)
    ensures r.None? <==> !HasName(rows, name)
    ensures r.Some? ==> r.value < |rows| && SameName(rows[r.value].name, name)
    ensures r.Some? ==> forall j :: 0 <= j < r.value ==> !SameName(rows[j].name, name)
  {
    if rows == [] then None
    else if SameName(rows[0].name, name) then Some(0)
    else
      match FindByName(rows[1..], name)
      case None =>
        assert forall i :: 1 <= i < |rows| ==> rows[i] == rows[1..][i - 1];
        None
      case Some(i) => Some(i + 1)
  }

  /** Under the uniqueness invariant a matching row is the only one. */
  lemma FindIsOnlyMatch(rows: seq<Row>, name: string, j: nat)
    requires UniqueNames(rows) && j < |rows| && SameName(rows[j].name, name)
    ensures FindByName(rows, name) == Some(j)
  {
    var k := FindByName(rows, name).value;
    if k != j {
      assert SameName(rows[k].name, rows[j].name);
      assert false;
    }
  }

  /** The row holds every field the record sets, stamped with `now`. */
  predicate Carries(row: Row, rec: Record, now: DbTime)
  {
    && row.capital == rec.capital && row.region == rec.region
    && row.population == rec.population && row.currencyCode == rec.currencyCode
    && row.exchangeRate == rec.exchangeRate && row.estimatedGdp == rec.estimatedGdp
    && row.flagUrl == rec.flagUrl && row.lastRefreshedAt == now
  }

  /** The UPDATE branch: every field but `id`, `name` and `created_at` is overwritten. */
  function Updated(row: Row, rec: Record, now: DbTime): (r: Row)
    ensures r.id == row.id && r.name == row.name && r.createdAt == row.createdAt
    ensures Carries(r, rec, now)
  {
    Row(row.id, row.name, rec.capital, rec.region, rec.population, rec.currencyCode,
        rec.exchangeRate, rec.estimatedGdp, rec.flagUrl, now, row.createdAt)
  }

  /** The INSERT branch: a new row with the next id, both timestamps from `NOW()`. */
  function Inserted(id: nat, rec: Record, now: DbTime): (r: Row)
    ensures r.id == id && r.name == rec.name && r.createdAt == now
    ensures Carries(r, rec, now)
  {
    Row(id, rec.name, rec.capital, rec.region, rec.population, rec.currencyCode,
        rec.exchangeRate, rec.estimatedGdp, rec.flagUrl, now, now)
  }

  /** `upsertCountry`: update the matching row in place, or append one new row. */
  function UpsertRow(t: Table, rec: Record, now: DbTime): (u: Table)
    ensures |t.rows| <= |u.rows| <= |t.rows| + 1
    ensures |u.rows| == |t.rows| <==> HasName(t.rows, rec.name)
    ensures forall i :: 0 <= i < |t.rows| ==>
              u.rows[i].id == t.rows[i].id && u.rows[i].name == t.rows[i].name
              && u.rows[i].createdAt == t.rows[i].createdAt
    ensures forall i :: 0 <= i < |t.rows| && !SameName(t.rows[i].name, rec.name) ==> u.rows[i] == t.rows[i]
    ensures HasName(t.rows, rec.name) ==>
              u.nextId == t.nextId
              && Carries(u.rows[FindByName(t.rows, rec.name).value], rec, now)
    ensures !HasName(t.rows, rec.name) ==>
              u.nextId == t.nextId + 1
              && u.rows == t.rows + [u.rows[|t.rows|]]
              && u.rows[|t.rows|].id == t.nextId && u.rows[|t.rows|].name == rec.name
              && u.rows[|t.rows|].createdAt == now && Carries(u.rows[|t.rows|], rec, now)
    ensures HasName(u.rows, rec.name)
    ensures TableValid(t) ==> TableValid(u)
  {
    match FindByName(t.rows, rec.name)
    case Some(i) =>
      var u := Table(t.rows[i := Updated(t.rows[i], rec, now)], t.nextId);
      assert TableValid(t) ==> TableValid(u) by {
        if TableValid(t) {
          forall a, b | 0 <= a < b < |u.rows| ensures !SameName(u.rows[a].name, u.rows[b].name) {
            assert u.rows[a].name == t.rows[a].name && u.rows[b].name == t.rows[b].name;
          }
        }
      }
      u
    case None =>
      var u := Table(t.rows + [Inserted(t.nextId, rec, now)], t.nextId + 1);
      assert u.rows[|t.rows|].name == rec.name;
      assert TableValid(t) ==> TableValid(u) by {
        if TableValid(t) {
          forall a, b | 0 <= a < b < |u.rows| ensures !SameName(u.rows[a].name, u.rows[b].name) {
            if b == |t.rows| {
              assert !SameName(t.rows[a].name, rec.name);
            }
          }
        }
      }
      u
  }

  /** The upserts of one refresh, applied in feed order. Each statement reads the
      database clock on its own: upsert `k` is stamped `clock(k)`. */
  function UpsertAll(t: Table, recs: seq<Record>, clock: nat -> DbTime): Table
    decreases |recs|
  {
    if recs == [] then t
    else UpsertRow(UpsertAll(t, recs[..|recs| - 1], clock), recs[|recs| - 1], clock(|recs| - 1))
  }

  /** A batch of upserts keeps the table invariant. */
  lemma {:induction false} UpsertAllValid(t: Table, recs: seq<Record>, clock: nat -> DbTime)
    requires TableValid(t)
    ensures TableValid(UpsertAll(t, recs, clock))
  {
    if recs != [] {
      UpsertAllValid(t, recs[..|recs| - 1], clock);
    }
  }

  /** A batch of upserts never removes or renames a row: rows already stored keep
      their position, id and name, and at most one row per record is added. */
  lemma {:induction false} UpsertAllKeepsRows(t: Table, recs: seq<Record>, clock: nat -> DbTime)
    ensures var u := UpsertAll(t, recs, clock);
            |t.rows| <= |u.rows| <= |t.rows| + |recs|
            && forall i :: 0 <= i < |t.rows| ==> u.rows[i].id == t.rows[i].id && u.rows[i].name == t.rows[i].name
  {
    if recs != [] {
      UpsertAllKeepsRows(t, recs[..|recs| - 1], clock);
    }
  }

  /** After a batch, every record's name has a case-insensitively matching row. */
  lemma {:induction false} UpsertAllCovers(t: Table, recs: seq<Record>, clock: nat -> DbTime)
    ensures forall k :: 0 <= k < |recs| ==> HasName(UpsertAll(t, recs, clock).rows, recs[k].name)
  {
    if recs != [] {
      var init := recs[..|recs| - 1];
      var before := UpsertAll(t, init, clock);
      var after := UpsertAll(t, recs, clock);
      UpsertAllCovers(t, init, clock);
      forall k | 0 <= k < |recs| ensures HasName(after.rows, recs[k].name) {
        if k < |recs| - 1 {
          assert recs[k] == init[k];
          var i :| 0 <= i < |before.rows| && SameName(before.rows[i].name, recs[k].name);
          assert after.rows[i].name == before.rows[i].name;
        }
      }
    }
  }

  /** A batch whose names are all already stored adds no row. */
  lemma {:induction false} UpsertAllNoNewRows(t: Table, recs: seq<Record>, clock: nat -> DbTime)
    requires forall k :: 0 <= k < |recs| ==> HasName(t.rows, recs[k].name)
    ensures |UpsertAll(t, recs, clock).rows| == |t.rows|
  {
    if recs != [] {
      var init := recs[..|recs| - 1];
      UpsertAllNoNewRows(t, init, clock);
      UpsertAllKeepsRows(t, init, clock);
      var before := UpsertAll(t, init, clock);
      var last := recs[|recs| - 1];
      var i :| 0 <= i < |t.rows| && SameName(t.rows[i].name, last.name);
      assert before.rows[i].name == t.rows[i].name;
    }
  }

  /** Refreshing a second time from a feed with the same names, whatever the
      rates and draws of either run, does not change the row count. */
  lemma RepeatRefreshKeepsCount(t: Table, feed: seq<RawCountry>,
                                rates1: map<string, real>, draw1: nat -> Multiplier,
                                rates2: map<string, real>, draw2: nat -> Multiplier,
                                clock1: nat -> DbTime, clock2: nat -> DbTime)
    ensures var once := UpsertAll(t, Records(feed, rates1, draw1), clock1);
            |UpsertAll(once, Records(feed, rates2, draw2), clock2).rows| == |once.rows|
  {
    var recs1 := Records(feed, rates1, draw1);
    var recs2 := Records(feed, rates2, draw2);
    var once := UpsertAll(t, recs1, clock1);
    UpsertAllCovers(t, recs1, clock1);
    assert forall k :: 0 <= k < |recs2| ==> recs2[k].name == recs1[k].name;
    UpsertAllNoNewRows(once, recs2, clock2);
  }

  /** The refresh reports the feed length as `total_countries`; that need not be
      the number of rows: a feed naming one country twice in different case
      yields one row. */
  lemma FeedLengthIsNotRowCount()
    ensures var feed := [RawCountry("France", None, None, 1, None, None),
                         RawCountry("FRANCE", None, None, 1, None, None)];
            var draw := (i: nat) => 1000.0 as Multiplier;
            |UpsertAll(EmptyTable, Records(feed, map[], draw), (k: nat) => k).rows| == 1 < |feed|
  {
    var feed := [RawCountry("France", None, None, 1, None, None),
                 RawCountry("FRANCE", None, None, 1, None, None)];
    var draw := (i: nat) => 1000.0 as Multiplier;
    var recs := Records(feed, map[], draw);
    var one := UpsertRow(EmptyTable, recs[0], 0);
    assert recs[..1] == [recs[0]];
    assert UpsertAll(EmptyTable, recs[..1], (k: nat) => k) == one;
    assert SameName(one.rows[0].name, "FRANCE");
    assert HasName(one.rows, recs[1].name);
  }

  /** `DELETE ... WHERE LOWER(name) = LOWER(?)`: the rows left, in storage order. */
  function RemoveByName(rows: seq<Row>, name: string): (r: seq<Row>)
    ensures |r| <= |rows|
    ensures forall x :: x in r <==> x in rows && !SameName(x.name, name)
    ensures |r| == |rows| <==> !HasName(rows, name)
    ensures !HasName(rows, name) ==> r == rows
  {
    if rows == [] then []
    else
      var rest := RemoveByName(rows[1..], name);
      assert HasName(rows, name) <==> SameName(rows[0].name, name) || HasName(rows[1..], name) by {
        if HasName(rows, name) && !SameName(rows[0].name, name) {
          var i :| 0 <= i < |rows| && SameName(rows[i].name, name);
          assert rows[1..][i - 1] == rows[i];
        }
        if HasName(rows[1..], name) {
          var i :| 0 <= i < |rows| - 1 && SameName(rows[1..][i].name, name);
          assert rows[i + 1] == rows[1..][i];
        }
      }
      if SameName(rows[0].name, name) then rest else [rows[0]] + rest
  }

  /** `p` holds of every pair of rows in storage order. */
  predicate Pairwise(rows: seq<Row>, p: (Row, Row) -> bool)
  {
    forall i, j :: 0 <= i < j < |rows| ==> p(rows[i], rows[j])
  }

  lemma PairwiseSplit(rows: seq<Row>, p: (Row, Row) -> bool)
    requires rows != [] && Pairwise(rows, p)
    ensures Pairwise(rows[1..], p)
    ensures forall x :: x in rows[1..] ==> p(rows[0], x)
  {
    var tail := rows[1..];
    forall i, j | 0 <= i < j < |tail| ensures p(tail[i], tail[j]) {
      assert tail[i] == rows[i + 1] && tail[j] == rows[j + 1];
    }
    forall x | x in tail ensures p(rows[0], x) {
      var k :| 0 <= k < |tail| && tail[k] == x;
      assert rows[k + 1] == x;
    }
  }

  lemma PairwiseCons(h: Row, rest: seq<Row>, p: (Row, Row) -> bool)
    requires Pairwise(rest, p) && forall x :: x in rest ==> p(h, x)
    ensures Pairwise([h] + rest, p)
  {
    var r := [h] + rest;
    forall i, j | 0 <= i < j < |r| ensures p(r[i], r[j]) {
      assert r[j] == rest[j - 1];
      if i > 0 {
        assert r[i] == rest[i - 1];
      }
    }
  }

  /** Deleting keeps every pairwise relation that held between the rows, since
      the rows left are a subsequence of the rows before. */
  lemma {:induction false} RemoveKeepsPairwise(rows: seq<Row>, name: string, p: (Row, Row) -> bool)
    requires Pairwise(rows, p)
    ensures Pairwise(RemoveByName(rows, name), p)
  {
    if rows != [] {
      PairwiseSplit(rows, p);
      RemoveKeepsPairwise(rows[1..], name, p);
      var rest := RemoveByName(rows[1..], name);
      if !SameName(rows[0].name, name) {
        PairwiseCons(rows[0], rest, p);
      }
    }
  }

  /** Deleting keeps the table invariant. */
  lemma RemoveKeepsValid(t: Table, name: string)
    requires TableValid(t)
    ensures TableValid(Table(RemoveByName(t.rows, name), t.nextId))
  {
    var distinctNames := (a: Row, b: Row) => !SameName(a.name, b.name);
    var distinctIds := (a: Row, b: Row) => a.id != b.id;
    assert Pairwise(t.rows, distinctNames) && Pairwise(t.rows, distinctIds);
    RemoveKeepsPairwise(t.rows, name, distinctNames);
    RemoveKeepsPairwise(t.rows, name, distinctIds);
    var r := RemoveByName(t.rows, name);
    forall i | 0 <= i < |r| ensures r[i].id < t.nextId {
      assert r[i] in t.rows;
    }
  }

  /** Under the uniqueness invariant a delete removes at most one row. */
  lemma {:induction false} RemoveAtMostOne(rows: seq<Row>, name: string)
    requires UniqueNames(rows)
    ensures |RemoveByName(rows, name)| + 1 >= |rows|
  {
    if rows != [] {
      var tail := rows[1..];
      if SameName(rows[0].name, name) {
        forall i | 0 <= i < |tail| ensures !SameName(tail[i].name, name) {
          assert tail[i] == rows[i + 1];
        }
        assert !HasName(tail, name);
      } else {
        forall i, j | 0 <= i < j < |tail| ensures !SameName(tail[i].name, tail[j].name) {
          assert tail[i] == rows[i + 1] && tail[j] == rows[j + 1];
        }
        RemoveAtMostOne(tail, name);
      }
    }
  }

  /** A row of the table as the top-by-GDP query returns it. */
  function Entry(row: Row): TopEntry
  {
    TopEntry(row.name, row.estimatedGdp)
  }

  function GdpOf(e: TopEntry): real
  {
    match e.estimatedGdp
    case Some(g) => g
    case None => 0.0
  }

  /** `WHERE estimated_gdp IS NOT NULL`, projected to `name, estimated_gdp`. */
  function WithGdp(rows: seq<Row>): (r: seq<TopEntry>)
    ensures forall e :: e in r ==> e.estimatedGdp.Some?
    ensures forall i :: 0 <= i < |rows| && rows[i].estimatedGdp.Some? ==> Entry(rows[i]) in r
    ensures forall e :: e in r ==> exists i :: 0 <= i < |rows| && Entry(rows[i]) == e
  {
    if rows == [] then []
    else
      var rest := WithGdp(rows[1..]);
      assert forall i :: 1 <= i < |rows| ==> rows[i] == rows[1..][i - 1];
      assert forall e :: e in rest ==> exists i :: 1 <= i < |rows| && Entry(rows[i]) == e by {
        forall e | e in rest ensures exists i :: 1 <= i < |rows| && Entry(rows[i]) == e {
          var j :| 0 <= j < |rows| - 1 && Entry(rows[1..][j]) == e;
          assert Entry(rows[j + 1]) == e;
        }
      }
      if rows[0].estimatedGdp.Some? then [Entry(rows[0])] + rest else rest
  }

  /** With unique names the filtered projection lists each row at most once:
      no two of its entries are equal. */
  lemma {:induction false} WithGdpNoDuplicates(rows: seq<Row>)
    requires UniqueNames(rows)
    ensures forall i, j :: 0 <= i < j < |WithGdp(rows)| ==> WithGdp(rows)[i] != WithGdp(rows)[j]
  {
    if rows != [] {
      var tail := rows[1..];
      assert UniqueNames(tail) by {
        forall i, j | 0 <= i < j < |tail|
          ensures !SameName(tail[i].name, tail[j].name)
        {
          assert tail[i] == rows[i + 1] && tail[j] == rows[j + 1];
        }
      }
      WithGdpNoDuplicates(tail);
      var rest := WithGdp(tail);
      if rows[0].estimatedGdp.Some? {
        assert Entry(rows[0]) !in rest by {
          if Entry(rows[0]) in rest {
            var k :| 0 <= k < |tail| && Entry(tail[k]) == Entry(rows[0]);
            assert tail[k] == rows[k + 1];
            assert SameName(rows[0].name, rows[k + 1].name);
          }
        }
        assert WithGdp(rows) == [Entry(rows[0])] + rest;
      }
    }
  }

  /** GDPs never increase along `r`. */
  predicate NonIncreasing(r: seq<TopEntry>)
  {
    forall i, j :: 0 <= i < j < |r| ==> GdpOf(r[j]) <= GdpOf(r[i])
  }

  /** Nothing in `left` has a GDP above any entry of `r`. */
  predicate Dominates(r: seq<TopEntry>, left: multiset<TopEntry>)
  {
    forall i, x :: 0 <= i < |r| && x in left ==> GdpOf(x) <= GdpOf(r[i])
  }

  /** `x` placed before the first entry of `s` whose GDP it reaches. */
  function InsertByGdp(x: TopEntry, s: seq<TopEntry>): (r: seq<TopEntry>)
    ensures multiset(r) == multiset(s) + multiset{x}
    ensures |r| == |s| + 1
    ensures r[0] == x || (s != [] && r[0] == s[0])
  {
    if s == [] || GdpOf(x) >= GdpOf(s[0]) then [x] + s
    else
      assert s == [s[0]] + s[1..];
      [s[0]] + InsertByGdp(x, s[1..])
  }

  /** `ORDER BY estimated_gdp DESC`: insertion sort on the GDP. */
  function SortByGdp(es: seq<TopEntry>): (r: seq<TopEntry>)
    ensures multiset(r) == multiset(es)
    ensures |r| == |es|
  {
    if es == [] then []
    else
      assert es == [es[0]] + es[1..];
      InsertByGdp(es[0], SortByGdp(es[1..]))
  }

  /** A head no smaller than the first entry of a sorted tail keeps it sorted. */
  lemma ConsSorted(m: TopEntry, tail: seq<TopEntry>)
    requires NonIncreasing(tail)
    requires tail != [] ==> GdpOf(tail[0]) <= GdpOf(m)
    ensures NonIncreasing([m] + tail)
  {
    var r := [m] + tail;
    forall i, j | 0 <= i < j < |r| ensures GdpOf(r[j]) <= GdpOf(r[i]) {
      assert r[j] == tail[j - 1];
      if i > 0 {
        assert r[i] == tail[i - 1];
      } else {
        assert GdpOf(tail[j - 1]) <= GdpOf(tail[0]);
      }
    }
  }

  lemma {:induction false} InsertSorted(x: TopEntry, s: seq<TopEntry>)
    requires NonIncreasing(s)
    ensures NonIncreasing(InsertByGdp(x, s))
  {
    if s == [] || GdpOf(x) >= GdpOf(s[0]) {
      ConsSorted(x, s);
    } else {
      var tail := s[1..];
      assert NonIncreasing(tail) by {
        forall i, j | 0 <= i < j < |tail| ensures GdpOf(tail[j]) <= GdpOf(tail[i]) {
          assert tail[i] == s[i + 1] && tail[j] == s[j + 1];
        }
      }
      InsertSorted(x, tail);
      var t := InsertByGdp(x, tail);
      assert tail != [] ==> GdpOf(tail[0]) <= GdpOf(s[0]) by {
        if tail != [] {
          assert tail[0] == s[1];
        }
      }
      ConsSorted(s[0], t);
    }
  }

  /** The sort puts the GDPs in non-increasing order. */
  lemma {:induction false} SortSorted(es: seq<TopEntry>)
    ensures NonIncreasing(SortByGdp(es))
  {
    if es != [] {
      SortSorted(es[1..]);
      InsertSorted(es[0], SortByGdp(es[1..]));
    }
  }

  /** The first `n` entries of a sorted sequence rank at or above everything after them. */
  lemma PrefixDominates(s: seq<TopEntry>, n: nat)
    requires NonIncreasing(s) && n <= |s|
    ensures Dominates(s[..n], multiset(s) - multiset(s[..n]))
  {
    assert s == s[..n] + s[n..];
    assert multiset(s) - multiset(s[..n]) == multiset(s[n..]);
    forall i, x | 0 <= i < n && x in multiset(s[n..]) ensures GdpOf(x) <= GdpOf(s[..n][i]) {
      assert x in s[n..];
      var j :| 0 <= j < |s| - n && s[n..][j] == x;
      assert s[n + j] == x;
    }
  }

  /** `LIMIT` keeps a sorted prefix: only elements of its input, each no more
      often than there, still in order. */
  lemma PrefixOfSorted(s: seq<TopEntry>, n: nat)
    requires n <= |s| && NonIncreasing(s)
    ensures multiset(s[..n]) <= multiset(s)
    ensures forall e :: e in s[..n] ==> e in s
    ensures NonIncreasing(s[..n])
  {
    assert s == s[..n] + s[n..];
    var r := s[..n];
    forall i, j | 0 <= i < j < |r| ensures GdpOf(r[j]) <= GdpOf(r[i]) {
      assert r[i] == s[i] && r[j] == s[j];
    }
  }

  /** Sequences with the same elements counted with multiplicity have the same
      members. */
  lemma SameMembers(a: seq<TopEntry>, b: seq<TopEntry>)
    requires multiset(a) == multiset(b)
    ensures forall e :: e in a <==> e in b
  {
    forall e ensures e in a <==> e in b {
      assert e in a <==> e in multiset(a);
      assert e in b <==> e in multiset(b);
    }
  }

  /** `getTopCountriesByGDP(limit)`: at most `limit` entries, all with a GDP, in
      non-increasing GDP order, each taken from the table, and no left-out row with
      a GDP ranks above any chosen one. */
  function TopByGdp(rows: seq<Row>, limit: nat): (r: seq<TopEntry>)
    ensures |r| == if limit < |WithGdp(rows)| then limit else |WithGdp(rows)|
    ensures |r| < limit ==> forall i :: 0 <= i < |rows| && rows[i].estimatedGdp.Some? ==> Entry(rows[i]) in r
    ensures forall e :: e in r ==> e.estimatedGdp.Some? && exists i :: 0 <= i < |rows| && Entry(rows[i]) == e
    ensures multiset(r) <= multiset(WithGdp(rows))
    ensures NonIncreasing(r)
    ensures Dominates(r, multiset(WithGdp(rows)) - multiset(r))
  {
    var es := WithGdp(rows);
    var sorted := SortByGdp(es);
    SortSorted(es);
    SameMembers(sorted, es);
    var n := if limit < |sorted| then limit else |sorted|;
    PrefixDominates(sorted, n);
    PrefixOfSorted(sorted, n);
    assert n == |sorted| ==> sorted[..n] == sorted;
    sorted[..n]
  }
}
