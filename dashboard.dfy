/** `DashboardData`: everything recorded for one group, each performance
    with the sequence it was shown (rebuilt from the stored seed) and its
    interactions in the order they were stored. */
module Dashboard {
  import opened Json
  import opened Prng
  import opened Persistence
  import opened Sequences
  import GroupCodes

  /** A column of a stored row; NULL when the row has no such column. */
  function Column(r: Row, c: string): Json {
    if c in r.values then r.values[c] else Null
  }

  /** The integer PHP sees for an INTEGER column fetched from SQLite. */
  function AsInt(j: Json): int {
    match j
    case Int(i) => i
    case Bool(b) => if b then 1 else 0
    case _ => 0
  }

  // ----- The join of getPerformances -----

  /** `ON "generated_sequences"."id" = "performance"."sequence_id"
      WHERE "generated_sequences"."group" = :group` */
  predicate Joins(p: Row, s: Row, group: int) {
    Column(p, "sequence_id") == Int(s.id) && Column(s, "group") == Int(group)
  }

  /** The sequence row a performance row joins with, if any. */
  function SequenceFor(p: Row, seqs: seq<Row>, group: int): (r: Option<Row>)
    ensures r.Some? ==> r.value in seqs && Joins(p, r.value, group)
    ensures r.None? ==> forall k :: 0 <= k < |seqs| ==> !Joins(p, seqs[k], group)
  {
    if seqs == [] then None
    else if Joins(p, seqs[0], group) then Some(seqs[0])
    else SequenceFor(p, seqs[1..], group)
  }

  /** One row of the join's result after `unset($row['id'])` and
      `unset($row['seed'])`, with the two values taken out of it. */
  datatype Fetched = Fetched(id: int, seed: int, width: int, height: int, length: int, shown: Fields)

  function Fetch(p: Row, s: Row): Fetched {
    Fetched(p.id, AsInt(Column(s, "seed")),
            AsInt(Column(s, "width")), AsInt(Column(s, "height")), AsInt(Column(s, "length")),
            [("time", Column(s, "time")), ("width", Column(s, "width")),
             ("height", Column(s, "height")), ("length", Column(s, "length")),
             ("age", Column(p, "age")), ("user_id", Column(p, "user_id")),
             ("successes", Column(p, "successes")), ("failures", Column(p, "failures")),
             ("mistakes", Column(p, "mistakes")), ("elapsed", Column(p, "elapsed"))])
  }

  /** The result set of the join, the `performance` table being scanned in
      id order and each row looked up in `generated_sequences`. */
  function JoinQuery(perfs: seq<Row>, seqs: seq<Row>, group: int): (r: seq<Fetched>)
    ensures |r| <= |perfs|
  {
    if perfs == [] then [] else JoinHead(perfs[0], seqs, group) + JoinQuery(perfs[1..], seqs, group)
  }

  /** The join's rows for one performance row: one if it joins, else none. */
  function JoinHead(p: Row, seqs: seq<Row>, group: int): (r: seq<Fetched>)
    ensures |r| <= 1
    ensures r != [] <==> SequenceFor(p, seqs, group).Some?
    ensures r != [] ==> r[0].id == p.id
  {
    match SequenceFor(p, seqs, group)
    case None => []
    case Some(s) => [Fetch(p, s)]
  }

  // ----- The dashboard entries -----

  /** `$this->performances[$performance_id]`: the shown columns, the
      interactions and the rebuilt sequence. */
  datatype Report = Report(shown: Fields, interactions: seq<Fields>, sequence: seq<(int, int)>)

  type Entries = seq<(int, Report)>

  /** The entry the loop body of getPerformances adds for a fetched row. */
  function Entry(f: Fetched): (int, Report) {
    (f.id, Report(f.shown, [], Coordinates(SequenceGenerator(f.width, f.height, f.length), f.seed)))
  }

  function EntriesOf(rows: seq<Fetched>): (r: Entries)
  {
    seq(|rows|, k requires 0 <= k < |rows| => Entry(rows[k]))
  }

  function EntryKeys(es: Entries): (r: seq<int>)
  {
    seq(|es|, k requires 0 <= k < |es| => es[k].0)
  }

  // ----- The query of getInterventions -----

  /** One row of the interactions query after `unset($row['performance_id'])`. */
  datatype Intervention = Intervention(performanceId: Json, shown: Fields)

  function ShownInteraction(r: Row): Intervention {
    Intervention(Column(r, "performance_id"),
                 [("x", Column(r, "x")), ("y", Column(r, "y")), ("distance", Column(r, "distance")),
                  ("elapsed", Column(r, "elapsed")), ("type", Column(r, "type")), ("class", Column(r, "class"))])
  }

  /** `"performance_id" IN (<ids>)`; with no ids the list is empty and
      nothing matches. */
  predicate InIds(j: Json, ids: seq<int>) {
    j.Int? && j.i in ids
  }

  /** The rows of `interactions` whose performance is listed, `ORDER BY
      "id"`; the table is kept in id order (see `Persistence.ValidRows`). */
  function InteractionQuery(rows: seq<Row>, ids: seq<int>): (r: seq<Intervention>)
    ensures forall k :: 0 <= k < |r| ==> InIds(r[k].performanceId, ids)
  {
    if rows == [] then []
    else
      var rest := InteractionQuery(rows[..|rows| - 1], ids);
      var last := ShownInteraction(rows[|rows| - 1]);
      if InIds(last.performanceId, ids) then rest + [last] else rest
  }

  /** The interactions, in order, that belong to performance `pid`. */
  function InterventionsOf(rows: seq<Intervention>, pid: int): seq<Fields> {
    if rows == [] then []
    else
      InterventionsOf(rows[..|rows| - 1], pid)
      + (if rows[|rows| - 1].performanceId == Int(pid) then [rows[|rows| - 1].shown] else [])
  }

  /** The entries with each one's interactions extended by its own rows. */
  function Filled(es: Entries, rows: seq<Intervention>): (r: Entries)
  {
    seq(|es|, k requires 0 <= k < |es| =>
      (es[k].0, es[k].1.(interactions := es[k].1.interactions + InterventionsOf(rows, es[k].0))))
  }

  /** `$this->performances[$performance_id]['interactions'][] = $row` */
  function AddTo(es: Entries, pid: int, f: Fields): (r: Entries)
  {
    seq(|es|, k requires 0 <= k < |es| =>
      if es[k].0 == pid then (es[k].0, es[k].1.(interactions := es[k].1.interactions + [f])) else es[k])
  }

  lemma FilledNothing(es: Entries)
    ensures Filled(es, []) == es
  {
    forall k | 0 <= k < |es| ensures Filled(es, [])[k] == es[k] {
      assert es[k].1.interactions + [] == es[k].1.interactions;
    }
  }

  lemma FilledStep(es: Entries, rows: seq<Intervention>, x: Intervention)
    requires x.performanceId.Int?
    ensures Filled(es, rows + [x]) == AddTo(Filled(es, rows), x.performanceId.i, x.shown)
  {
    var rows' := rows + [x];
    assert rows'[..|rows'| - 1] == rows && rows'[|rows'| - 1] == x;
    var a, b := Filled(es, rows'), AddTo(Filled(es, rows), x.performanceId.i, x.shown);
    forall k | 0 <= k < |es| ensures a[k] == b[k] {
      var (pid, e) := es[k];
      var before := InterventionsOf(rows, pid);
      if x.performanceId == Int(pid) {
        assert InterventionsOf(rows', pid) == before + [x.shown];
        assert e.interactions + (before + [x.shown]) == (e.interactions + before) + [x.shown];
      } else {
        assert InterventionsOf(rows', pid) == before + [];
        assert before + [] == before;
      }
    }
  }

  /** What `new DashboardData($group)` leaves in `$this->performances`. */
  function View(db: Tables, group: int): Entries {
    var es := EntriesOf(JoinQuery(db.Get(Table.Performance).rows, db.Get(GeneratedSequences).rows, group));
    Filled(es, InteractionQuery(db.Get(Interactions).rows, EntryKeys(es)))
  }

  /** The state the shared generator is left in after `n` calls of `generate`. */
  function Reseeded(st: State, n: nat): State
    decreases n
  {
    if n == 0 then st else Reseeded(Seed(Next(st).0), n - 1)
  }

  // ----- What the dashboard shows -----

  /** Performance `pid` is recorded against a sequence issued to `group`. */
  ghost predicate InGroup(perfs: seq<Row>, seqs: seq<Row>, group: int, pid: int) {
    exists p, s :: p in perfs && s in seqs && p.id == pid && Joins(p, s, group)
  }

  function FetchedIds(r: seq<Fetched>): (ids: seq<int>)
    ensures |ids| == |r|
    ensures forall k :: 0 <= k < |r| ==> ids[k] == r[k].id
  {
    seq(|r|, k requires 0 <= k < |r| => r[k].id)
  }

  /** The row fetched for a performance row that joins. */
  predicate FetchedFrom(f: Fetched, p: Row, seqs: seq<Row>, group: int) {
    SequenceFor(p, seqs, group).Some? && f == Fetch(p, SequenceFor(p, seqs, group).value)
  }

  /** Every fetched row is the one for a performance row that joins. */
  lemma {:induction false} JoinQueryRows(perfs: seq<Row>, seqs: seq<Row>, group: int)
    ensures forall f :: f in JoinQuery(perfs, seqs, group) ==> exists p :: p in perfs && FetchedFrom(f, p, seqs, group)
  {
    if perfs != [] {
      JoinQueryRows(perfs[1..], seqs, group);
      var tail := JoinQuery(perfs[1..], seqs, group);
      forall f | f in JoinQuery(perfs, seqs, group)
        ensures exists p :: p in perfs && FetchedFrom(f, p, seqs, group)
      {
        if f !in tail {
          assert FetchedFrom(f, perfs[0], seqs, group);
        } else {
          var p :| p in perfs[1..] && FetchedFrom(f, p, seqs, group);
          assert p in perfs;
        }
      }
    }
  }

  lemma FetchedIdsAppend(a: seq<Fetched>, b: seq<Fetched>)
    ensures FetchedIds(a + b) == FetchedIds(a) + FetchedIds(b)
  {
  }

  /** The fetched ids are those of the performance rows that join. */
  lemma {:induction false} JoinQueryIds(perfs: seq<Row>, seqs: seq<Row>, group: int, pid: int)
    ensures pid in FetchedIds(JoinQuery(perfs, seqs, group))
      <==> exists p :: p in perfs && p.id == pid && SequenceFor(p, seqs, group).Some?
  {
    if perfs != [] {
      var head, tail := JoinHead(perfs[0], seqs, group), JoinQuery(perfs[1..], seqs, group);
      FetchedIdsAppend(head, tail);
      JoinQueryIds(perfs[1..], seqs, group, pid);
      assert pid in FetchedIds(head) <==> perfs[0].id == pid && SequenceFor(perfs[0], seqs, group).Some?;
      assert forall p :: p in perfs <==> p == perfs[0] || p in perfs[1..];
    }
  }

  /** The dashboard lists exactly the performances recorded against a
      sequence of the group. */
  lemma ViewKeys(db: Tables, group: int, pid: int)
    ensures pid in EntryKeys(View(db, group))
      <==> InGroup(db.Get(Table.Performance).rows, db.Get(GeneratedSequences).rows, group, pid)
  {
    var perfs, seqs := db.Get(Table.Performance).rows, db.Get(GeneratedSequences).rows;
    var r := JoinQuery(perfs, seqs, group);
    JoinQueryIds(perfs, seqs, group, pid);
    assert EntryKeys(View(db, group)) == FetchedIds(r);
    if InGroup(perfs, seqs, group, pid) {
      var p, s :| p in perfs && s in seqs && p.id == pid && Joins(p, s, group);
      var i :| 0 <= i < |seqs| && seqs[i] == s;
      assert SequenceFor(p, seqs, group).Some?;
    }
  }

  /** Each entry shows the columns of its performance and sequence rows, and
      its sequence is `generate` run on the stored seed and dimensions. */
  lemma ViewEntries(db: Tables, group: int, k: int)
    requires 0 <= k < |View(db, group)|
    ensures var perfs, seqs := db.Get(Table.Performance).rows, db.Get(GeneratedSequences).rows;
      exists p :: p in perfs && SequenceFor(p, seqs, group).Some? &&
        var s := SequenceFor(p, seqs, group).value;
        && s in seqs && Joins(p, s, group)
        && View(db, group)[k].0 == p.id
        && View(db, group)[k].1.shown == Fetch(p, s).shown
        && View(db, group)[k].1.sequence == Coordinates(
             SequenceGenerator(AsInt(Column(s, "width")), AsInt(Column(s, "height")), AsInt(Column(s, "length"))),
             AsInt(Column(s, "seed")))
  {
    var perfs, seqs := db.Get(Table.Performance).rows, db.Get(GeneratedSequences).rows;
    var r := JoinQuery(perfs, seqs, group);
    JoinQueryRows(perfs, seqs, group);
    assert r[k] in r;
    var p :| p in perfs && FetchedFrom(r[k], p, seqs, group);
  }

  predicate Increasing(ids: seq<int>) {
    forall i, j :: 0 <= i < j < |ids| ==> ids[i] < ids[j]
  }

  lemma IncreasingCons(x: int, ids: seq<int>)
    requires Increasing(ids)
    requires forall k :: 0 <= k < |ids| ==> x < ids[k]
    ensures Increasing([x] + ids)
  {
    var r := [x] + ids;
    forall i, j | 0 <= i < j < |r| ensures r[i] < r[j] {
      assert r[j] == ids[j - 1];
      if i > 0 {
        assert r[i] == ids[i - 1];
      }
    }
  }

  /** In an ascending table, the first row's id is below every later one. */
  lemma AscendingTail(rows: seq<Row>)
    requires Ascending(rows) && rows != []
    ensures Ascending(rows[1..])
    ensures forall p :: p in rows[1..] ==> rows[0].id < p.id
  {
    forall i, j | 0 <= i < j < |rows[1..]| ensures rows[1..][i].id < rows[1..][j].id {
      assert rows[1..][i] == rows[i + 1] && rows[1..][j] == rows[j + 1];
    }
    forall p | p in rows[1..] ensures rows[0].id < p.id {
      var m :| 0 <= m < |rows[1..]| && rows[1..][m] == p;
      assert rows[m + 1] == p;
    }
  }

  /** A bound below every performance id is below every fetched id. */
  lemma JoinQueryAbove(perfs: seq<Row>, seqs: seq<Row>, group: int, bound: int)
    requires forall p :: p in perfs ==> bound < p.id
    ensures forall k :: 0 <= k < |JoinQuery(perfs, seqs, group)| ==> bound < FetchedIds(JoinQuery(perfs, seqs, group))[k]
  {
    var r := JoinQuery(perfs, seqs, group);
    JoinQueryRows(perfs, seqs, group);
    forall k | 0 <= k < |r| ensures bound < FetchedIds(r)[k] {
      assert r[k] in r;
      var p :| p in perfs && FetchedFrom(r[k], p, seqs, group);
    }
  }

  /** With the `performance` table in id order, the join's rows are too, so
      no two rows write the same key of `$this->performances`. */
  lemma {:induction false} JoinQueryAscending(perfs: seq<Row>, seqs: seq<Row>, group: int)
    requires Ascending(perfs)
    ensures Increasing(FetchedIds(JoinQuery(perfs, seqs, group)))
  {
    if perfs != [] {
      var head, tail := JoinHead(perfs[0], seqs, group), JoinQuery(perfs[1..], seqs, group);
      AscendingTail(perfs);
      JoinQueryAscending(perfs[1..], seqs, group);
      JoinQueryAbove(perfs[1..], seqs, group, perfs[0].id);
      FetchedIdsAppend(head, tail);
      if head != [] {
        assert FetchedIds(head) == [perfs[0].id];
        IncreasingCons(perfs[0].id, FetchedIds(tail));
      }
    }
  }

  /** The dashboard's keys are the performance ids in ascending order. */
  lemma ViewKeysAscending(db: Tables, group: int)
    requires Valid(db)
    ensures Increasing(EntryKeys(View(db, group)))
  {
    var perfs, seqs := db.Get(Table.Performance).rows, db.Get(GeneratedSequences).rows;
    assert ValidRows(db.Get(Table.Performance));
    JoinQueryAscending(perfs, seqs, group);
    assert EntryKeys(View(db, group)) == FetchedIds(JoinQuery(perfs, seqs, group));
  }

  /** A group nobody was issued a sequence for has an empty dashboard. */
  lemma {:induction false} EmptyGroup(perfs: seq<Row>, seqs: seq<Row>, group: int)
    requires forall k :: 0 <= k < |seqs| ==> Column(seqs[k], "group") != Int(group)
    ensures JoinQuery(perfs, seqs, group) == []
  {
    if perfs != [] {
      assert forall s :: s in seqs ==> !Joins(perfs[0], s, group);
      EmptyGroup(perfs[1..], seqs, group);
    }
  }

  /** The rows of `interactions` stored for performance `pid`, in table order. */
  function OwnRows(rows: seq<Row>, pid: int): (r: seq<Row>)
    ensures forall x :: x in r <==> x in rows && Column(x, "performance_id") == Int(pid)
  {
    if rows == [] then []
    else
      var last := rows[|rows| - 1];
      OwnRows(rows[..|rows| - 1], pid) + (if Column(last, "performance_id") == Int(pid) then [last] else [])
  }

  /** Each row as the dashboard shows it, without its `performance_id`. */
  function Shown(rows: seq<Row>): (r: seq<Fields>)
  {
    seq(|rows|, k requires 0 <= k < |rows| => ShownInteraction(rows[k]).shown)
  }

  predicate Ascending(rows: seq<Row>) {
    forall i, j :: 0 <= i < j < |rows| ==> rows[i].id < rows[j].id
  }

  /** A performance keeps the table's ascending id order among its rows. */
  lemma {:induction false} OwnRowsAscending(rows: seq<Row>, pid: int)
    requires Ascending(rows)
    ensures Ascending(OwnRows(rows, pid))
  {
    if rows != [] {
      var init, last := rows[..|rows| - 1], rows[|rows| - 1];
      assert Ascending(init) by {
        forall i, j | 0 <= i < j < |init| ensures init[i].id < init[j].id {
          assert init[i] == rows[i] && init[j] == rows[j];
        }
      }
      OwnRowsAscending(init, pid);
      var r := OwnRows(init, pid);
      if Column(last, "performance_id") == Int(pid) {
        forall i | 0 <= i < |r| ensures r[i].id < last.id {
          assert r[i] in init;
          var m :| 0 <= m < |init| && init[m] == r[i];
          assert rows[m] == r[i];
        }
        var r' := r + [last];
        forall i, j | 0 <= i < j < |r'| ensures r'[i].id < r'[j].id {
          if j == |r| {
            assert r'[i] == r[i] && r'[j] == last;
          } else {
            assert r'[i] == r[i] && r'[j] == r[j];
          }
        }
        assert OwnRows(rows, pid) == r';
      } else {
        assert OwnRows(rows, pid) == r + [];
      }
    }
  }

  lemma ShownAppend(rows: seq<Row>, x: Row)
    ensures Shown(rows + [x]) == Shown(rows) + [ShownInteraction(x).shown]
  {
  }

  /** The interactions query scoped to `ids` gives a listed performance all
      of its rows, in order, and an unlisted one none. */
  lemma {:induction false} InterventionsOfQuery(rows: seq<Row>, ids: seq<int>, pid: int)
    ensures InterventionsOf(InteractionQuery(rows, ids), pid) == if pid in ids then Shown(OwnRows(rows, pid)) else []
  {
    if rows != [] {
      var init, last := rows[..|rows| - 1], rows[|rows| - 1];
      InterventionsOfQuery(init, ids, pid);
      var q := InteractionQuery(init, ids);
      var x := ShownInteraction(last);
      if InIds(x.performanceId, ids) {
        var q' := q + [x];
        assert q'[..|q'| - 1] == q && q'[|q'| - 1] == x;
        assert InterventionsOf(q', pid)
          == InterventionsOf(q, pid) + (if x.performanceId == Int(pid) then [x.shown] else []);
      }
      if pid in ids && Column(last, "performance_id") == Int(pid) {
        ShownAppend(OwnRows(init, pid), last);
      }
    }
  }

  /** Every entry lists exactly its own stored interactions, in table order. */
  lemma ViewInteractions(db: Tables, group: int, k: int)
    requires 0 <= k < |View(db, group)|
    ensures View(db, group)[k].1.interactions == Shown(OwnRows(db.Get(Interactions).rows, View(db, group)[k].0))
  {
    var es := EntriesOf(JoinQuery(db.Get(Table.Performance).rows, db.Get(GeneratedSequences).rows, group));
    var ids := EntryKeys(es);
    assert ids[k] == es[k].0;
    InterventionsOfQuery(db.Get(Interactions).rows, ids, es[k].0);
  }
  /** On a valid database each entry's interactions are exactly its own
      rows, in ascending id order, as `ORDER BY "id"` returns them. */
  lemma ViewInteractionsAscending(db: Tables, group: int, k: int)
    requires Valid(db)
    requires 0 <= k < |View(db, group)|
    ensures View(db, group)[k].1.interactions == Shown(OwnRows(db.Get(Interactions).rows, View(db, group)[k].0))
    ensures Ascending(OwnRows(db.Get(Interactions).rows, View(db, group)[k].0))
  {
    ViewInteractions(db, group, k);
    assert ValidRows(db.Get(Interactions));
    OwnRowsAscending(db.Get(Interactions).rows, View(db, group)[k].0);
  }


  class DashboardData {
    var group: int
    var performances: Entries

    /** `new DashboardData($group)`: getPerformances, then getInterventions. */
    constructor (group: int, db: Tables, rng: Rng)
      modifies rng
      ensures this.group == group
      ensures performances == View(db, group)
      ensures rng.state == Reseeded(old(rng.state), |JoinQuery(db.Get(Table.Performance).rows, db.Get(GeneratedSequences).rows, group)|)
    {
      this.group := group;
      performances := [];
      new;
      GetPerformances(db, rng);
      GetInterventions(db);
    }

    /** The `while` over the join: one entry per row, its sequence rebuilt
        by `generate` from the stored seed and dimensions. */
    method GetPerformances(db: Tables, rng: Rng)
      requires performances == []
      modifies this, rng
      ensures group == old(group)
      ensures performances == EntriesOf(JoinQuery(db.Get(Table.Performance).rows, db.Get(GeneratedSequences).rows, group))
      ensures rng.state == Reseeded(old(rng.state), |JoinQuery(db.Get(Table.Performance).rows, db.Get(GeneratedSequences).rows, group)|)
    {
      var rows := JoinQuery(db.Get(Table.Performance).rows, db.Get(GeneratedSequences).rows, group);
      var i := 0;
      ghost var st0 := rng.state;
      while i < |rows|
        invariant 0 <= i <= |rows|
        invariant |performances| == i
        invariant forall k :: 0 <= k < i ==> performances[k] == Entry(rows[k])
        invariant Reseeded(st0, |rows|) == Reseeded(rng.state, |rows| - i)
        invariant group == old(group)
      {
        var row := rows[i];
        var generator := SequenceGenerator(row.width, row.height, row.length);
        ghost var before := rng.state;
        var sequence := Generate(generator, row.seed, rng);
        assert Reseeded(before, |rows| - i) == Reseeded(rng.state, |rows| - i - 1);
        performances := performances + [(row.id, Report(row.shown, [], sequence))];
        assert performances[i] == Entry(row);
        i := i + 1;
      }
      assert performances == EntriesOf(rows);
    }

    /** The `while` over the interactions query: each row is appended to its
        performance's list. */
    method GetInterventions(db: Tables)
      modifies this
      ensures group == old(group)
      ensures performances == Filled(old(performances), InteractionQuery(db.Get(Interactions).rows, EntryKeys(old(performances))))
    {
      var rows := InteractionQuery(db.Get(Interactions).rows, EntryKeys(performances));
      ghost var es := performances;
      FilledNothing(es);
      var i := 0;
      while i < |rows|
        invariant 0 <= i <= |rows|
        invariant group == old(group)
        invariant performances == Filled(es, rows[..i])
      {
        var row := rows[i];
        FilledStep(es, rows[..i], row);
        assert rows[..i + 1] == rows[..i] + [row];
        performances := AddTo(performances, row.performanceId.i, row.shown);
        i := i + 1;
      }
      assert rows[..|rows|] == rows;
    }
  }

  /** `DashboardData::fromCode($code)`: an unknown code throws before any
      query runs; otherwise the performances of the code's group. */
  method FromCode(code: string, db: Tables, rng: Rng) returns (r: Result<Entries, string>)
    modifies rng
    ensures GroupCodes.GetGroup(code).Err? ==>
      r == Err(GroupCodes.GetGroup(code).error) && rng.state == old(rng.state)
    ensures GroupCodes.GetGroup(code).Ok? ==>
      && r == Ok(View(db, GroupCodes.GetGroup(code).value))
      && rng.state == Reseeded(old(rng.state), |JoinQuery(db.Get(Table.Performance).rows, db.Get(GeneratedSequences).rows, GroupCodes.GetGroup(code).value)|)
  {
    var group := GroupCodes.GetGroup(code);
    if group.Err? {
      return Err(group.error);
    }
    var d := new DashboardData(group.value, db, rng);
    r := Ok(d.performances);
  }
}
