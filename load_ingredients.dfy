/**
 * The `load_ingredients` management command
 * (backend/foodgram/management/commands/load_ingredients.py): every
 * (name, measurement unit) record of the input is passed to
 * `get_or_create`, and the rows actually created are counted. The records
 * arrive as a list instead of being read from a file.
 */
module LoadIngredients {
  import opened Wrappers
  import opened Text
  import opened Models

  /** One input record: the ingredient's name and its measurement unit. */
  type Record = (string, string)

  /**
   * The records a run creates, in input order, given the keys the catalog
   * already holds: a record is created the first time it is met unless the
   * catalog has it.
   */
  function Fresh(known: seq<Record>, records: seq<Record>): seq<Record> {
    if records == [] then []
    else
      var earlier := Fresh(known, records[..|records| - 1]);
      var x := records[|records| - 1];
      if x in known || x in earlier then earlier else earlier + [x]
  }

  /** The rows appended for the created records, with consecutive ids from `start`. */
  function NewRows(start: int, created: seq<Record>): seq<Ingredient> {
    seq(|created|, k requires 0 <= k < |created| => Ingredient(start + k, created[k].0, created[k].1))
  }

  /**
   * Inserting `x` after the keys `seen` breaks the unique name column:
   * `x` itself is not stored, but its name is, with another unit.
   */
  predicate Clashes(seen: seq<Record>, x: Record) {
    x !in seen && x.0 in KeyNames(seen)
  }

  /** The `k`-th record clashes with the catalog as the run has left it by then. */
  predicate ClashAt(known: seq<Record>, records: seq<Record>, k: int)
    requires 0 <= k < |records|
  {
    Clashes(known + Fresh(known, records[..k]), records[k])
  }

  /** None of the first `n` records clashes. */
  predicate NoClashBefore(known: seq<Record>, records: seq<Record>, n: int)
    requires 0 <= n <= |records|
  {
    forall j :: 0 <= j < n ==> !ClashAt(known, records, j)
  }

  lemma NoClashExtend(known: seq<Record>, records: seq<Record>, n: int)
    requires 0 <= n < |records|
    requires NoClashBefore(known, records, n) && !ClashAt(known, records, n)
    ensures NoClashBefore(known, records, n + 1)
  {
  }

  /**
   * The command: one `get_or_create` per record, in input order, counting
   * the rows created. A clash stops the run with the rows created so far
   * kept, as nothing wraps the loop in a transaction.
   */
  method Seed(db: Database, records: seq<Record>) returns (r: Result<nat, ApiError>)
    requires db.Valid()
    modifies db
    ensures db.Valid()
    ensures r.Success? ==>
      && NoClashBefore(Keys(old(db.ingredients)), records, |records|)
      && r.value == |Fresh(Keys(old(db.ingredients)), records)|
      && db.ingredients == old(db.ingredients) + NewRows(old(db.nextIngredientId), Fresh(Keys(old(db.ingredients)), records))
      && db.nextIngredientId == old(db.nextIngredientId) + r.value
    ensures r.Failure? ==>
      && r.error == ServerError
      && (exists k :: 0 <= k < |records| && ClashAt(Keys(old(db.ingredients)), records, k)
           && NoClashBefore(Keys(old(db.ingredients)), records, k)
           && db.ingredients == old(db.ingredients) + NewRows(old(db.nextIngredientId), Fresh(Keys(old(db.ingredients)), records[..k]))
           && db.nextIngredientId == old(db.nextIngredientId) + |Fresh(Keys(old(db.ingredients)), records[..k])|)
    ensures db.OtherTables() == old(db.OtherTables())
  {
    ghost var catalog := db.ingredients;
    ghost var known := Keys(catalog);
    ghost var start := db.nextIngredientId;
    ghost var made: seq<Record> := [];
    var created := 0;
    var i := 0;
    while i < |records|
      invariant 0 <= i <= |records|
      invariant db.Valid()
      invariant NoClashBefore(known, records, i)
      invariant made == Fresh(known, records[..i])
      invariant created == |made|
      invariant db.nextIngredientId == start + created
      invariant db.ingredients == catalog + NewRows(start, made)
      invariant db.OtherTables() == old(db.OtherTables())
    {
      var item := records[i];
      KeysAfterAppend(catalog, start, made);
      SeedStep(catalog, known, records, i, start);
      var step := db.GetOrCreateIngredient(item.0, item.1);
      if step.Failure? {
        assert ClashAt(known, records, i);
        return Failure(ServerError);
      }
      NoClashExtend(known, records, i);
      if step.value {
        made := made + [item];
        created := created + 1;
      }
      i := i + 1;
    }
    assert records[..i] == records;
    r := Success(created);
  }

  /** How one more record changes what the run has created and the catalog it leaves. */
  lemma SeedStep(catalog: seq<Ingredient>, known: seq<Record>, records: seq<Record>, i: int, start: int)
    requires 0 <= i < |records|
    ensures var made := Fresh(known, records[..i]);
      var x := records[i];
      && (x in known + made ==> Fresh(known, records[..i + 1]) == made)
      && (x !in known + made ==>
            && Fresh(known, records[..i + 1]) == made + [x]
            && catalog + NewRows(start, made + [x]) == catalog + NewRows(start, made) + [Ingredient(start + |made|, x.0, x.1)])
  {
    var made := Fresh(known, records[..i]);
    var x := records[i];
    assert records[..i + 1][..i] == records[..i];
    assert NewRows(start, made + [x]) == NewRows(start, made) + [Ingredient(start + |made|, x.0, x.1)];
  }

  /**
   * Names that agree on their unit, between the catalog and the input and
   * within the input, never clash: such an input always loads.
   */
  lemma LoadsWhenNamesAgree(catalog: seq<Ingredient>, records: seq<Record>)
    requires forall i, x :: i in catalog && x in records && i.name == x.0 ==> i.unit == x.1
    requires forall x, y :: x in records && y in records && x.0 == y.0 ==> x.1 == y.1
    ensures NoClashBefore(Keys(catalog), records, |records|)
  {
    var known := Keys(catalog);
    forall k | 0 <= k < |records| ensures !ClashAt(known, records, k) {
      var seen := known + Fresh(known, records[..k]);
      var x := records[k];
      FreshMembers(known, records[..k]);
      if x.0 in KeyNames(seen) {
        var m :| 0 <= m < |seen| && KeyNames(seen)[m] == x.0;
        var y := seen[m];
        if m < |known| {
          assert y == (catalog[m].name, catalog[m].unit) && catalog[m] in catalog;
        } else {
          assert y in Fresh(known, records[..k]);
          assert y in records[..k];
        }
        assert y == x;
      }
    }
  }

  /** A record is created exactly when it occurs in the input and not in the catalog. */
  lemma {:induction false} FreshMembers(known: seq<Record>, records: seq<Record>)
    ensures forall x :: x in Fresh(known, records) <==> x in records && x !in known
  {
    if records != [] {
      var init := records[..|records| - 1];
      FreshMembers(known, init);
      assert records == init + [records[|records| - 1]];
    }
  }

  /** No record is created twice. */
  lemma {:induction false} FreshDistinct(known: seq<Record>, records: seq<Record>)
    ensures forall i, j :: 0 <= i < j < |Fresh(known, records)| ==> Fresh(known, records)[i] != Fresh(known, records)[j]
  {
    if records != [] {
      var init := records[..|records| - 1];
      FreshDistinct(known, init);
    }
  }

  lemma {:induction false} DistinctCardinality(s: seq<Record>)
    requires forall i, j :: 0 <= i < j < |s| ==> s[i] != s[j]
    ensures |set x | x in s| == |s|
  {
    if s != [] {
      var init := s[..|s| - 1];
      var last := s[|s| - 1];
      DistinctCardinality(init);
      assert last !in init by {
        forall m | 0 <= m < |init| ensures init[m] != last { assert init[m] == s[m]; }
      }
      assert (set x | x in s) == (set x | x in init) + {last} by {
        assert s == init + [last];
      }
    }
  }

  /** The keys after appending the created rows: the old keys, then the created records. */
  lemma KeysAfterAppend(catalog: seq<Ingredient>, nextId: int, created: seq<Record>)
    ensures Keys(catalog + NewRows(nextId, created)) == Keys(catalog) + created
  {
    var rows := NewRows(nextId, created);
    assert forall k :: 0 <= k < |created| ==> (rows[k].name, rows[k].unit) == created[k];
    assert forall k :: 0 <= k < |catalog| ==> (catalog + rows)[k] == catalog[k];
    assert forall k :: |catalog| <= k < |catalog| + |rows| ==> (catalog + rows)[k] == rows[k - |catalog|];
  }

  /** `created_count` is the number of distinct input records the catalog lacked. */
  lemma FreshCount(known: seq<Record>, records: seq<Record>)
    ensures |Fresh(known, records)| == |(set x | x in records) - (set x | x in known)|
  {
    var created := Fresh(known, records);
    FreshMembers(known, records);
    FreshDistinct(known, records);
    DistinctCardinality(created);
    assert (set x | x in created) == (set x | x in records) - (set x | x in known);
  }

  /**
   * After seeding, every input record is in the catalog, the rows that
   * were there are kept as they were, no key is stored twice, and the count
   * is the number of distinct input records the catalog lacked.
   */
  lemma SeedOutcome(catalog: seq<Ingredient>, nextId: int, records: seq<Record>)
    ensures var created := Fresh(Keys(catalog), records);
      var after := catalog + NewRows(nextId, created);
      && (forall r :: r in records ==> r in Keys(after))
      && after[..|catalog|] == catalog
      && (forall j, k :: 0 <= j < k < |created| ==> created[j] != created[k])
      && (forall x :: x in created ==> x !in Keys(catalog))
      && |created| == |(set x | x in records) - (set x | x in Keys(catalog))|
  {
    var known := Keys(catalog);
    var created := Fresh(known, records);
    FreshMembers(known, records);
    FreshDistinct(known, records);
    FreshCount(known, records);
    KeysAfterAppend(catalog, nextId, created);
    var after := catalog + NewRows(nextId, created);
    assert after[..|catalog|] == catalog;
  }

  /** Once every record is in the catalog, a run creates nothing. */
  lemma {:induction false} NothingFreshWhenKnown(known: seq<Record>, records: seq<Record>)
    requires forall r :: r in records ==> r in known
    ensures Fresh(known, records) == []
  {
    if records != [] {
      var init := records[..|records| - 1];
      assert forall r :: r in init ==> r in records;
      NothingFreshWhenKnown(known, init);
      assert records[|records| - 1] in records;
    }
  }

  /** Running the command a second time on the same input loads without error and creates nothing. */
  lemma SecondRunCreatesNothing(catalog: seq<Ingredient>, nextId: int, records: seq<Record>)
    ensures var after := catalog + NewRows(nextId, Fresh(Keys(catalog), records));
      && Fresh(Keys(after), records) == []
      && NoClashBefore(Keys(after), records, |records|)
  {
    SeedOutcome(catalog, nextId, records);
    var after := catalog + NewRows(nextId, Fresh(Keys(catalog), records));
    NothingFreshWhenKnown(Keys(after), records);
    forall k | 0 <= k < |records| ensures !ClashAt(Keys(after), records, k) {
      assert records[k] in records;
    }
  }

  // ---------------------------------------------------------------------
  // The closing message.
  // ---------------------------------------------------------------------

  const ReportHead := "Успешно загружено "
  const ReportTail := " ингредиентов"

  /** The success line the command writes once the loop ends. */
  function Report(created: nat): string {
    ReportHead + NatToString(created) + ReportTail
  }

  /** The count can be read back from the message: distinct counts give distinct messages. */
  lemma ReportCarriesCount(created: nat)
    ensures var m := Report(created);
      && |ReportHead| + |ReportTail| < |m|
      && m[..|ReportHead|] == ReportHead
      && m[|m| - |ReportTail|..] == ReportTail
      && (forall i :: |ReportHead| <= i < |m| - |ReportTail| ==> IsDigit(m[i]))
      && DecimalValue(m[|ReportHead|..|m| - |ReportTail|]) == created
  {
    var m := Report(created);
    var digits := NatToString(created);
    DecimalRoundTrip(created);
    assert m[|ReportHead|..|m| - |ReportTail|] == digits;
  }
}
