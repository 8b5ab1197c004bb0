/** The order of the usages does not matter to the rows, nor to whether there are any. */
module DailyRowsOrder {
  import opened Wrappers
  import opened DayKeys
  import opened DailyRows
  import opened Sequences

  /** What a scan that counts these usages gives: nothing if the tokens of some day do not fit, the rows otherwise. */
  ghost predicate Answers(us: seq<Usage>, r: Option<seq<Row>>) {
    && (r.None? <==> exists day :: DaySum(us, day, All) > I64_MAX)
    && (r.Some? ==> Meets(us, r.value))
  }

  lemma {:induction false} SumOfParts(us: seq<Usage>, vs: seq<Usage>, day: string, kind: Kind)
    ensures DaySum(us + vs, day, kind) == DaySum(us, day, kind) + DaySum(vs, day, kind)
  {
    if vs == [] {
      assert us + vs == us;
    } else {
      SumOfParts(us, vs[..|vs| - 1], day, kind);
      assert (us + vs)[..|us + vs| - 1] == us + vs[..|vs| - 1];
    }
  }

  lemma {:induction false} SumOfPermutation(us: seq<Usage>, vs: seq<Usage>, day: string, kind: Kind)
    requires multiset(us) == multiset(vs)
    ensures DaySum(us, day, kind) == DaySum(vs, day, kind)
    decreases |us|
  {
    hide DaySum;
    if us == [] {
      NoneLeft(vs);
    } else {
      var j := TakeOut(us, vs);
      var x, before, after := us[0], vs[..j], vs[j + 1..];
      SumOfPermutation(us[1..], before + after, day, kind);
      SumOfParts([x], us[1..], day, kind);
      SumOfParts(before, after, day, kind);
      SumOfParts(before + [x], after, day, kind);
      SumOfParts(before, [x], day, kind);
      assert us == [x] + us[1..];
    }
  }

  lemma SameSums(us: seq<Usage>, vs: seq<Usage>)
    requires multiset(us) == multiset(vs)
    ensures forall day, kind :: DaySum(us, day, kind) == DaySum(vs, day, kind)
    ensures Days(us) == Days(vs) && forall day :: ModelsOn(us, day) == ModelsOn(vs, day)
  {
    forall day, kind
      ensures DaySum(us, day, kind) == DaySum(vs, day, kind)
    {
      SumOfPermutation(us, vs, day, kind);
    }
    forall u
      ensures u in us <==> u in vs
    {
      assert u in multiset(us) <==> u in multiset(vs);
    }
  }

  /** A day has only one faithful row. */
  lemma OneRow(us: seq<Usage>, a: Row, b: Row)
    requires Faithful(us, a) && Faithful(us, b) && a.date == b.date
    ensures a == b
  {
    hide DaySum, SumValues, ModelsOn;
    forall name | name in a.models
      ensures name in b.models && a.models[name] == b.models[name]
    {
      assert Got(a.models, name) == Got(b.models, name);
    }
    assert a.models == b.models;
  }

  lemma LastDate(a: seq<Row>)
    requires Descending(a) && a != []
    ensures var n := |a| - 1;
            && Dates(a[..n]) == Dates(a) - {a[n].date} && Descending(a[..n]) && a[n].date in Dates(a)
            && forall day :: day in Dates(a) && day != a[n].date ==> Before(a[n].date, day)
  {
    hide Before;
    var n := |a| - 1;
    forall i | 0 <= i < n
      ensures a[i].date != a[n].date && a[..n][i] == a[i] && a[i].date in Dates(a) && a[i].date in Dates(a[..n])
    {
      BeforeIsTotal(a[i].date, a[n].date);
    }
    assert a[n].date in Dates(a);
  }

  lemma NoDates(rows: seq<Row>)
    ensures rows == [] <==> Dates(rows) == {}
  {
    if rows != [] {
      assert rows[0].date in Dates(rows);
    }
  }

  /** Rows of the same day are the same. */
  ghost predicate Agree(a: seq<Row>, b: seq<Row>) {
    forall i, j :: 0 <= i < |a| && 0 <= j < |b| && a[i].date == b[j].date ==> a[i] == b[j]
  }

  lemma SameLastRow(a: seq<Row>, b: seq<Row>)
    requires Descending(a) && Descending(b) && Dates(a) == Dates(b) && Agree(a, b) && a != [] && b != []
    ensures var m, n := |a| - 1, |b| - 1;
            && a[m] == b[n] && Dates(a[..m]) == Dates(b[..n]) && Agree(a[..m], b[..n])
            && Descending(a[..m]) && Descending(b[..n])
  {
    LastDate(a);
    LastDate(b);
    hide Before, Dates, Descending;
    BeforeIsTotal(a[|a| - 1].date, b[|b| - 1].date);
  }

  /** Rows in descending order are determined by their days and the row of each day. */
  lemma {:induction false} SameRows(a: seq<Row>, b: seq<Row>)
    requires Descending(a) && Descending(b) && Dates(a) == Dates(b) && Agree(a, b)
    ensures a == b
  {
    hide Descending, Dates, Agree;
    NoDates(a);
    NoDates(b);
    if a == [] {
      assert b == [];
    } else {
      SameLastRow(a, b);
      SameRows(a[..|a| - 1], b[..|b| - 1]);
      assert a == a[..|a| - 1] + [a[|a| - 1]] && b == b[..|b| - 1] + [b[|b| - 1]];
    }
  }

  /** Permuted usages give the same answer. */
  lemma AnswersIgnoreOrder(us: seq<Usage>, vs: seq<Usage>, r: Option<seq<Row>>, q: Option<seq<Row>>)
    requires multiset(us) == multiset(vs) && Answers(us, r) && Answers(vs, q)
    ensures r == q
  {
    hide DaySum, Faithful, Days, ModelsOn, Descending, Dates, RowsTotal, GrandTotal;
    SameSums(us, vs);
    if r.Some? && q.Some? {
      forall i, j | 0 <= i < |r.value| && 0 <= j < |q.value| && r.value[i].date == q.value[j].date
        ensures r.value[i] == q.value[j]
      {
        FaithfulToBoth(us, vs, q.value[j]);
        OneRow(us, r.value[i], q.value[j]);
      }
      SameRows(r.value, q.value);
    }
  }

  lemma FaithfulToBoth(us: seq<Usage>, vs: seq<Usage>, row: Row)
    requires multiset(us) == multiset(vs) && Faithful(vs, row)
    ensures Faithful(us, row)
  {
    hide DaySum, SumValues, Days, ModelsOn;
    SameSums(us, vs);
  }
}
