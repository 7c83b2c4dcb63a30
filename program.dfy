/**
 * HDARead's Program class: the k-way temporal merge of the per-tag series
 * (Merge), the older table and merged layouts it still dispatches to
 * (OutputTable, OutputMerged) and the output-format option (GetOutputFormat).
 */
module Program {
  import opened Samples
  import opened TextOut

  // ---------------------------------------------------------------------------
  // The merge, as a specification over cursor states
  // ---------------------------------------------------------------------------

  /** One output entry of a merge step: the tag's head sample, or a placeholder. */
  datatype Cell = Copied(sample: Sample) | Filled(at: Timestamp) {
    function Out(): Sample
    {
      match this
      case Copied(x) => x
      case Filled(t) => Placeholder(t)
    }
  }

  /** One merge step: its minimum timestamp and one cell per tag. */
  datatype Row = Row(time: Timestamp, cells: seq<Cell>)

  /** One cursor per tag, none past the end of its series. */
  predicate Cursors(s: seq<seq<Sample>>, cur: seq<nat>)
  {
    |cur| == |s| && forall i :: 0 <= i < |s| ==> cur[i] <= |s[i]|
  }

  /** The smallest head timestamp among the first k tags that still have samples,
      or DateTime.MaxValue; on a tie the earlier tag is kept (strict comparison). */
  function MinHead(s: seq<seq<Sample>>, cur: seq<nat>, k: nat): Timestamp
    requires Cursors(s, cur) && k <= |s|
  {
    if k == 0 then MaxTicks
    else
      var m := MinHead(s, cur, k - 1);
      if cur[k - 1] < |s[k - 1]| && m > s[k - 1][cur[k - 1]].timestamp
      then s[k - 1][cur[k - 1]].timestamp
      else m
  }

  /** Tag i still has samples and its head is stamped m. */
  predicate Matches(s: seq<seq<Sample>>, cur: seq<nat>, m: Timestamp, i: int)
    requires Cursors(s, cur) && 0 <= i < |s|
  {
    cur[i] < |s[i]| && s[i][cur[i]].timestamp == m
  }

  function StepCells(s: seq<seq<Sample>>, cur: seq<nat>, m: Timestamp): (cells: seq<Cell>)
    requires Cursors(s, cur)
    ensures |cells| == |s|
  {
    seq(|s|, i requires 0 <= i < |s| => if Matches(s, cur, m, i) then Copied(s[i][cur[i]]) else Filled(m))
  }

  /** The cursors after a step at m. */
  function Advance(s: seq<seq<Sample>>, cur: seq<nat>, m: Timestamp): (next: seq<nat>)
    requires Cursors(s, cur)
    ensures Cursors(s, next)
    ensures forall i :: 0 <= i < |s| ==> next[i] == if Matches(s, cur, m, i) then cur[i] + 1 else cur[i]
  {
    seq(|s|, i requires 0 <= i < |s| => if Matches(s, cur, m, i) then cur[i] + 1 else cur[i])
  }

  /** The loop goes on: some cursor that advanced at m still has samples. */
  predicate MoreData(s: seq<seq<Sample>>, cur: seq<nat>, m: Timestamp)
    requires Cursors(s, cur)
  {
    exists i :: 0 <= i < |s| && Matches(s, cur, m, i) && cur[i] + 1 < |s[i]|
  }

  /** Samples not yet consumed by the first k cursors. */
  function Remaining(s: seq<seq<Sample>>, cur: seq<nat>, k: nat): nat
    requires Cursors(s, cur) && k <= |s|
  {
    if k == 0 then 0 else Remaining(s, cur, k - 1) + (|s[k - 1]| - cur[k - 1])
  }

  lemma {:induction false} RemainingShrinks(s: seq<seq<Sample>>, cur: seq<nat>, m: Timestamp, k: nat)
    requires Cursors(s, cur) && k <= |s|
    ensures Remaining(s, Advance(s, cur, m), k) <= Remaining(s, cur, k)
    ensures (exists i :: 0 <= i < k && Matches(s, cur, m, i)) ==> Remaining(s, Advance(s, cur, m), k) < Remaining(s, cur, k)
  {
    if k > 0 {
      RemainingShrinks(s, cur, m, k - 1);
    }
  }

  /** The rows the loop emits from cursor state cur on: at least one, each
      with one cell per tag, every cell stamped with the row's time. */
  function MergeFrom(s: seq<seq<Sample>>, cur: seq<nat>): (rows: seq<Row>)
    requires Cursors(s, cur)
    ensures |rows| >= 1
    ensures forall j :: 0 <= j < |rows| ==> |rows[j].cells| == |s|
    ensures forall j, i :: 0 <= j < |rows| && 0 <= i < |rows[j].cells| ==> rows[j].cells[i].Out().timestamp == rows[j].time
    decreases Remaining(s, cur, |s|)
  {
    var m := MinHead(s, cur, |s|);
    var row := Row(m, StepCells(s, cur, m));
    if MoreData(s, cur, m) then
      RemainingShrinks(s, cur, m, |s|);
      [row] + MergeFrom(s, Advance(s, cur, m))
    else
      [row]
  }

  function Start(n: nat): (cur: seq<nat>)
    ensures |cur| == n && forall i :: 0 <= i < n ==> cur[i] == 0
  {
    seq(n, _ => 0)
  }

  /** All rows of the merge: the loop starts with every cursor at 0. */
  function MergeTable(s: seq<seq<Sample>>): (rows: seq<Row>)
    ensures |rows| >= 1
    ensures forall j :: 0 <= j < |rows| ==> |rows[j].cells| == |s|
  {
    MergeFrom(s, Start(|s|))
  }

  /** Output series i: the i-th cell of every row. */
  function Column(rows: seq<Row>, i: nat): (col: seq<Sample>)
    requires forall j :: 0 <= j < |rows| ==> i < |rows[j].cells|
    ensures |col| == |rows|
  {
    seq(|rows|, j requires 0 <= j < |rows| => rows[j].cells[i].Out())
  }

  /** What Merge returns: same names, one merged series per input series. */
  function MergeSpec(items: seq<Series>): (merged: seq<Series>)
    ensures |merged| == |items|
  {
    var rows := MergeTable(SampleSeqs(items));
    seq(|items|, i requires 0 <= i < |items| => Series(items[i].name, Column(rows, i)))
  }

  /** A merge step copies a sample whose value is null. The copy's trace message
      is built with the value's ToString(), whatever the trace level, so such a
      step throws a null-reference exception. */
  predicate CopiesNull(r: Row)
  {
    exists i :: 0 <= i < |r.cells| && r.cells[i].Copied? && r.cells[i].sample.value == None
  }

  /** Merge throws: one of its steps copies a null value. */
  predicate MergeRaises(s: seq<seq<Sample>>)
  {
    exists j :: 0 <= j < |MergeTable(s)| && CopiesNull(MergeTable(s)[j])
  }

  // ---------------------------------------------------------------------------
  // What the merge guarantees
  // ---------------------------------------------------------------------------

  /** The minimum is at most every head still available, and it is either
      DateTime.MaxValue or the head of one of those tags. */
  lemma {:induction false} MinHeadBounds(s: seq<seq<Sample>>, cur: seq<nat>, k: nat)
    requires Cursors(s, cur) && k <= |s|
    ensures forall i :: 0 <= i < k && cur[i] < |s[i]| ==> MinHead(s, cur, k) <= s[i][cur[i]].timestamp
    ensures MinHead(s, cur, k) == MaxTicks || exists i :: 0 <= i < k && Matches(s, cur, MinHead(s, cur, k), i)
  {
    if k > 0 {
      MinHeadBounds(s, cur, k - 1);
      var m := MinHead(s, cur, k - 1);
      if cur[k - 1] < |s[k - 1]| && m > s[k - 1][cur[k - 1]].timestamp {
        assert Matches(s, cur, MinHead(s, cur, k), k - 1);
      } else if m != MaxTicks {
        var i :| 0 <= i < k - 1 && Matches(s, cur, m, i);
        assert Matches(s, cur, MinHead(s, cur, k), i);
      }
    }
  }

  /** A step in which some tag still has samples advances at least one cursor
      (the one that supplied the minimum), so the loop makes progress. */
  lemma StepAdvances(s: seq<seq<Sample>>, cur: seq<nat>)
    requires Cursors(s, cur)
    requires exists i :: 0 <= i < |s| && cur[i] < |s[i]|
    ensures exists i :: 0 <= i < |s| && Matches(s, cur, MinHead(s, cur, |s|), i)
    ensures Remaining(s, Advance(s, cur, MinHead(s, cur, |s|)), |s|) < Remaining(s, cur, |s|)
  {
    var m := MinHead(s, cur, |s|);
    MinHeadBounds(s, cur, |s|);
    var i :| 0 <= i < |s| && cur[i] < |s[i]|;
    if m == MaxTicks {
      assert Matches(s, cur, m, i);
    }
    RemainingShrinks(s, cur, m, |s|);
  }

  /** The samples copied (not filled in) into output series i, in order. */
  function CopiedSamples(rows: seq<Row>, i: nat): seq<Sample>
    requires forall j :: 0 <= j < |rows| ==> i < |rows[j].cells|
  {
    if rows == [] then []
    else
      var rest := CopiedSamples(rows[1..], i);
      match rows[0].cells[i]
      case Copied(x) => [x] + rest
      case Filled(_) => rest
  }

  /** One step of the merge, then the steps after it. */
  lemma MergeUnfold(s: seq<seq<Sample>>, cur: seq<nat>)
    requires Cursors(s, cur)
    ensures var m := MinHead(s, cur, |s|);
      MergeFrom(s, cur)
        == [Row(m, StepCells(s, cur, m))] + (if MoreData(s, cur, m) then MergeFrom(s, Advance(s, cur, m)) else [])
  {
  }

  lemma CopiedCons(r: Row, rest: seq<Row>, i: nat)
    requires i < |r.cells| && forall j :: 0 <= j < |rest| ==> i < |rest[j].cells|
    ensures CopiedSamples([r] + rest, i)
         == (if r.cells[i].Copied? then [r.cells[i].sample] else []) + CopiedSamples(rest, i)
  {
    assert ([r] + rest)[1..] == rest;
  }

  lemma {:induction false} CopiedFrom(s: seq<seq<Sample>>, cur: seq<nat>, i: nat)
    requires Cursors(s, cur) && i < |s|
    ensures cur[i] + |CopiedSamples(MergeFrom(s, cur), i)| <= |s[i]|
    ensures CopiedSamples(MergeFrom(s, cur), i) == s[i][cur[i]..cur[i] + |CopiedSamples(MergeFrom(s, cur), i)|]
    decreases Remaining(s, cur, |s|)
  {
    var m := MinHead(s, cur, |s|);
    var next := Advance(s, cur, m);
    var more := MoreData(s, cur, m);
    var rest := if more then MergeFrom(s, next) else [];
    MergeUnfold(s, cur);
    if more {
      RemainingShrinks(s, cur, m, |s|);
      CopiedFrom(s, next, i);
    }
    CopiedStep(s, cur, m, i, next[i], rest);
  }

  /** One merge row in front of rows that copy a slice of series i from a on:
      together they copy a slice from the cursor on. */
  lemma CopiedStep(s: seq<seq<Sample>>, cur: seq<nat>, m: Timestamp, i: nat, a: nat, rest: seq<Row>)
    requires Cursors(s, cur) && i < |s|
    requires a == if Matches(s, cur, m, i) then cur[i] + 1 else cur[i]
    requires forall j :: 0 <= j < |rest| ==> i < |rest[j].cells|
    requires a + |CopiedSamples(rest, i)| <= |s[i]| && CopiedSamples(rest, i) == s[i][a..a + |CopiedSamples(rest, i)|]
    ensures cur[i] + |CopiedSamples([Row(m, StepCells(s, cur, m))] + rest, i)| <= |s[i]|
    ensures CopiedSamples([Row(m, StepCells(s, cur, m))] + rest, i)
         == s[i][cur[i]..cur[i] + |CopiedSamples([Row(m, StepCells(s, cur, m))] + rest, i)|]
  {
    var r := Row(m, StepCells(s, cur, m));
    CopiedCons(r, rest, i);
    var c' := CopiedSamples(rest, i);
    if Matches(s, cur, m, i) {
      assert r.cells[i] == Copied(s[i][cur[i]]);
      SliceCons(s[i], cur[i], CopiedSamples([r] + rest, i), c');
    } else {
      assert r.cells[i] == Filled(m);
    }
  }

  /** Prepending the sample at a to the slice that follows it. */
  lemma SliceCons(xs: seq<Sample>, a: nat, c: seq<Sample>, c': seq<Sample>)
    requires a + 1 + |c'| <= |xs| && c' == xs[a + 1..a + 1 + |c'|] && c == [xs[a]] + c'
    ensures a + |c| <= |xs| && c == xs[a..a + |c|]
  {
  }

  /** The samples that reach output series i unchanged are, in order, a prefix
      of input series i; every other entry is a placeholder. */
  lemma MergeCopiesPrefix(s: seq<seq<Sample>>, i: nat)
    requires i < |s|
    ensures |CopiedSamples(MergeTable(s), i)| <= |s[i]|
    ensures CopiedSamples(MergeTable(s), i) == s[i][..|CopiedSamples(MergeTable(s), i)|]
    ensures forall j :: 0 <= j < |MergeTable(s)| && MergeTable(s)[j].cells[i].Filled? ==>
      Column(MergeTable(s), i)[j] == Placeholder(MergeTable(s)[j].time)
  {
    CopiedFrom(s, Start(|s|), i);
  }

  /** When every series strictly ascends, the step after one at m (if any) has a larger minimum. */
  lemma NextMinimumLarger(s: seq<seq<Sample>>, cur: seq<nat>)
    requires Cursors(s, cur)
    requires forall i :: 0 <= i < |s| ==> StrictlyAscending(s[i])
    requires MoreData(s, cur, MinHead(s, cur, |s|))
    ensures MinHead(s, Advance(s, cur, MinHead(s, cur, |s|)), |s|) > MinHead(s, cur, |s|)
  {
    var m := MinHead(s, cur, |s|);
    var next := Advance(s, cur, m);
    MinHeadBounds(s, cur, |s|);
    MinHeadBounds(s, next, |s|);
    var w :| 0 <= w < |s| && Matches(s, cur, m, w) && cur[w] + 1 < |s[w]|;
    assert s[w][cur[w]].timestamp < s[w][cur[w] + 1].timestamp;
    forall i | 0 <= i < |s| && next[i] < |s[i]|
      ensures s[i][next[i]].timestamp > m
    {
      if Matches(s, cur, m, i) {
        assert s[i][cur[i]].timestamp < s[i][cur[i] + 1].timestamp;
      }
    }
  }

  lemma {:induction false} TimesIncreaseFrom(s: seq<seq<Sample>>, cur: seq<nat>)
    requires Cursors(s, cur)
    requires forall i :: 0 <= i < |s| ==> StrictlyAscending(s[i])
    ensures MergeFrom(s, cur)[0].time == MinHead(s, cur, |s|)
    ensures forall a, b :: 0 <= a < b < |MergeFrom(s, cur)| ==> MergeFrom(s, cur)[a].time < MergeFrom(s, cur)[b].time
    decreases Remaining(s, cur, |s|)
  {
    var m := MinHead(s, cur, |s|);
    if MoreData(s, cur, m) {
      var next := Advance(s, cur, m);
      RemainingShrinks(s, cur, m, |s|);
      TimesIncreaseFrom(s, next);
      NextMinimumLarger(s, cur);
      var rows := MergeFrom(s, cur);
      var rest := MergeFrom(s, next);
      assert rows == [Row(m, StepCells(s, cur, m))] + rest;
      forall a, b | 0 <= a < b < |rows|
        ensures rows[a].time < rows[b].time
      {
        if a == 0 {
          assert rows[b] == rest[b - 1];
          if b > 1 {
            assert rest[0].time < rest[b - 1].time;
          }
        } else {
          assert rows[a] == rest[a - 1] && rows[b] == rest[b - 1];
        }
      }
    }
  }

  /** With strictly ascending input series, the output rows' timestamps strictly increase. */
  lemma MergeTimesIncrease(s: seq<seq<Sample>>)
    requires forall i :: 0 <= i < |s| ==> StrictlyAscending(s[i])
    ensures forall a, b :: 0 <= a < b < |MergeTable(s)| ==> MergeTable(s)[a].time < MergeTable(s)[b].time
  {
    TimesIncreaseFrom(s, Start(|s|));
  }

  /** The merged series all have one length (the number of loop turns, at least
      one), keep their names, and agree on the timestamp at every index. */
  lemma MergeShape(items: seq<Series>)
    ensures var merged := MergeSpec(items);
      && (forall i :: 0 <= i < |items| ==> merged[i].name == items[i].name)
      && (forall i :: 0 <= i < |items| ==> |merged[i].samples| == |MergeTable(SampleSeqs(items))| >= 1)
      && (forall i, k, j :: 0 <= i < |items| && 0 <= k < |items| && 0 <= j < |merged[i].samples| ==>
            merged[i].samples[j].timestamp == merged[k].samples[j].timestamp)
  {
    var rows := MergeTable(SampleSeqs(items));
    forall i, k, j | 0 <= i < |items| && 0 <= k < |items| && 0 <= j < |MergeSpec(items)[i].samples|
      ensures MergeSpec(items)[i].samples[j].timestamp == MergeSpec(items)[k].samples[j].timestamp
    {
      assert MergeSpec(items)[i].samples[j] == rows[j].cells[i].Out();
      assert MergeSpec(items)[k].samples[j] == rows[j].cells[k].Out();
    }
  }

  /** With no sample at all, the loop still turns once: one placeholder row at DateTime.MaxValue. */
  lemma AllEmptyGivesOneRow(s: seq<seq<Sample>>)
    requires forall i :: 0 <= i < |s| ==> s[i] == []
    ensures MergeTable(s) == [Row(MaxTicks, seq(|s|, _ => Filled(MaxTicks)))]
  {
    var cur := Start(|s|);
    MinHeadBounds(s, cur, |s|);
    var m := MinHead(s, cur, |s|);
    assert m == MaxTicks;
    assert !MoreData(s, cur, m);
    assert StepCells(s, cur, m) == seq(|s|, _ => Filled(MaxTicks));
  }

  /** A merge of one series gives the series back (when it has a sample). */
  lemma {:induction false} SingleSeriesFrom(xs: seq<Sample>, c: nat)
    requires c < |xs|
    ensures Column(MergeFrom([xs], [c]), 0) == xs[c..]
    decreases |xs| - c
  {
    var s, cur := [xs], [c];
    var m := MinHead(s, cur, 1);
    assert MinHead(s, cur, 0) == MaxTicks;
    assert m == xs[c].timestamp;
    assert Matches(s, cur, m, 0);
    var r := Row(m, StepCells(s, cur, m));
    assert r.cells[0] == Copied(xs[c]);
    if c + 1 < |xs| {
      assert MoreData(s, cur, m);
      assert Advance(s, cur, m) == [c + 1];
      SingleSeriesFrom(xs, c + 1);
      var rest := MergeFrom([xs], [c + 1]);
      assert MergeFrom(s, cur) == [r] + rest;
      assert Column([r] + rest, 0) == [xs[c]] + Column(rest, 0);
      assert xs[c..] == [xs[c]] + xs[c + 1..];
    } else {
      assert !MoreData(s, cur, m);
      assert MergeFrom(s, cur) == [r];
    }
  }

  lemma SingleSeriesIdentity(item: Series)
    requires item.samples != []
    ensures MergeSpec([item]) == [item]
  {
    SingleSeriesFrom(item.samples, 0);
    assert SampleSeqs([item]) == [item.samples];
    assert Start(1) == [0];
    assert item.samples[0..] == item.samples;
  }

  /** The loop stops as soon as no cursor that advanced has samples left, even if
      another tag still has some: A = [t1], B = [t2] with t1 < t2 gives one row,
      and B's sample never reaches the output. */
  lemma StopsBeforeLaterTag(a: Sample, b: Sample)
    requires a.timestamp < b.timestamp
    ensures MergeTable([[a], [b]]) == [Row(a.timestamp, [Copied(a), Filled(a.timestamp)])]
    ensures CopiedSamples(MergeTable([[a], [b]]), 1) == []
  {
    var s, cur := [[a], [b]], Start(2);
    assert cur == [0, 0];
    assert MinHead(s, cur, 1) == a.timestamp;
    assert MinHead(s, cur, 2) == a.timestamp;
    assert !MoreData(s, cur, a.timestamp);
    assert StepCells(s, cur, a.timestamp) == [Copied(a), Filled(a.timestamp)];
  }

  /** Tag A = [(t1, 10), (t2, 11)], tag B = [(t1, 20)]: row t1 holds both samples,
      row t2 holds A's second sample and a placeholder for B. */
  lemma TwoTagExample(a1: Sample, a2: Sample, b1: Sample)
    requires a1.timestamp == b1.timestamp < a2.timestamp
    ensures MergeTable([[a1, a2], [b1]])
         == [Row(a1.timestamp, [Copied(a1), Copied(b1)]), Row(a2.timestamp, [Copied(a2), Filled(a2.timestamp)])]
  {
    var s := [[a1, a2], [b1]];
    var c0 := Start(2);
    assert c0 == [0, 0];
    assert MinHead(s, c0, 1) == a1.timestamp;
    assert MinHead(s, c0, 2) == a1.timestamp;
    assert Matches(s, c0, a1.timestamp, 0);
    assert MoreData(s, c0, a1.timestamp);
    var c1 := Advance(s, c0, a1.timestamp);
    assert c1 == [1, 1];
    assert StepCells(s, c0, a1.timestamp) == [Copied(a1), Copied(b1)];
    assert MinHead(s, c1, 1) == a2.timestamp;
    assert MinHead(s, c1, 2) == a2.timestamp;
    assert !MoreData(s, c1, a2.timestamp);
    assert StepCells(s, c1, a2.timestamp) == [Copied(a2), Filled(a2.timestamp)];
    assert MergeFrom(s, c1) == [Row(a2.timestamp, [Copied(a2), Filled(a2.timestamp)])];
  }

  /** Every sample a merge step copies is the head of its tag's series. */
  lemma {:induction false} CopiedFromInput(s: seq<seq<Sample>>, cur: seq<nat>, j: nat, i: nat)
    requires Cursors(s, cur) && i < |s| && j < |MergeFrom(s, cur)|
    requires MergeFrom(s, cur)[j].cells[i].Copied?
    ensures MergeFrom(s, cur)[j].cells[i].sample in s[i]
    decreases Remaining(s, cur, |s|)
  {
    var m := MinHead(s, cur, |s|);
    MergeUnfold(s, cur);
    if j == 0 {
      assert MergeFrom(s, cur)[0].cells[i] == StepCells(s, cur, m)[i];
    } else {
      RemainingShrinks(s, cur, m, |s|);
      var next := Advance(s, cur, m);
      assert MergeFrom(s, cur)[j] == MergeFrom(s, next)[j - 1];
      CopiedFromInput(s, next, j - 1, i);
    }
  }

  /** Merge cannot throw when every input sample has a value. */
  lemma MergeRaisesOnlyOnNull(s: seq<seq<Sample>>)
    requires forall i, k :: 0 <= i < |s| && 0 <= k < |s[i]| ==> s[i][k].value.Some?
    ensures !MergeRaises(s)
  {
    var rows := MergeTable(s);
    forall j | 0 <= j < |rows|
      ensures !CopiesNull(rows[j])
    {
      forall i | 0 <= i < |rows[j].cells| && rows[j].cells[i].Copied?
        ensures rows[j].cells[i].sample.value.Some?
      {
        CopiedFromInput(s, Start(|s|), j, i);
      }
    }
  }

  /** A single series whose only sample has a null value: Merge throws. */
  lemma MergeRaisesExample(x: Sample)
    requires x.value == None
    ensures MergeRaises([[x]])
  {
    var s, cur := [[x]], Start(1);
    assert cur == [0];
    assert MinHead(s, cur, 0) == MaxTicks;
    var m := MinHead(s, cur, 1);
    assert Matches(s, cur, m, 0);
    assert MergeTable(s)[0].cells[0] == Copied(x);
    assert CopiesNull(MergeTable(s)[0]);
  }

  // ---------------------------------------------------------------------------
  // The merge loop (Program.cs Merge)
  // ---------------------------------------------------------------------------

  lemma ColumnSnoc(rows: seq<Row>, r: Row, i: nat)
    requires forall j :: 0 <= j < |rows| ==> i < |rows[j].cells|
    requires i < |r.cells|
    ensures Column(rows + [r], i) == Column(rows, i) + [r.cells[i].Out()]
  {
  }

  lemma SeqAssoc<T>(a: seq<T>, b: seq<T>, c: seq<T>)
    ensures a + b + c == a + (b + c)
  {
  }

  /** One turn of the loop: the rows from cur are this step's row, then (if the
      loop goes on) the rows from the advanced cursors, which are fewer samples away. */
  lemma MergeStep(s: seq<seq<Sample>>, done: seq<Row>, cur: seq<nat>, m: Timestamp)
    requires Cursors(s, cur) && m == MinHead(s, cur, |s|)
    ensures MoreData(s, cur, m) ==> done + [Row(m, StepCells(s, cur, m))] + MergeFrom(s, Advance(s, cur, m)) == done + MergeFrom(s, cur)
    ensures !MoreData(s, cur, m) ==> done + [Row(m, StepCells(s, cur, m))] == done + MergeFrom(s, cur)
    ensures MoreData(s, cur, m) ==> Remaining(s, Advance(s, cur, m), |s|) < Remaining(s, cur, |s|)
    ensures Remaining(s, Advance(s, cur, m), |s|) <= Remaining(s, cur, |s|)
  {
    RemainingShrinks(s, cur, m, |s|);
    var r := Row(m, StepCells(s, cur, m));
    if MoreData(s, cur, m) {
      var tail := MergeFrom(s, Advance(s, cur, m));
      assert MergeFrom(s, cur) == [r] + tail;
      SeqAssoc(done, [r], tail);
    }
  }

  lemma ColumnsSnoc(rows: seq<Row>, r: Row, n: nat)
    requires forall j :: 0 <= j < |rows| ==> |rows[j].cells| == n
    requires |r.cells| == n
    ensures forall k :: 0 <= k < n ==> Column(rows + [r], k) == Column(rows, k) + [r.cells[k].Out()]
  {
    forall k | 0 <= k < n
      ensures Column(rows + [r], k) == Column(rows, k) + [r.cells[k].Out()]
    {
      ColumnSnoc(rows, r, k);
    }
  }

  /** The output series after the rows `done`: each input name with its column. */
  function Partial(items: seq<Series>, done: seq<Row>): (ms: seq<Series>)
    requires forall j :: 0 <= j < |done| ==> |done[j].cells| == |items|
    ensures |ms| == |items|
  {
    seq(|items|, k requires 0 <= k < |items| => Series(items[k].name, Column(done, k)))
  }

  lemma PartialSnoc(items: seq<Series>, done: seq<Row>, r: Row, before: seq<Series>, after: seq<Series>)
    requires forall j :: 0 <= j < |done| ==> |done[j].cells| == |items|
    requires |r.cells| == |items| && before == Partial(items, done) && |after| == |items|
    requires after == Appended(before, r.cells)
    ensures after == Partial(items, done + [r])
  {
    ColumnsSnoc(done, r, |items|);
  }

  /** The merge as written: on a copied null value the trace call throws, and
      merged is then not returned (its contents mean nothing). */
  method Merge(items: seq<Series>) returns (merged: array<Series>, fault: Option<Fault>)
    ensures fresh(merged)
    ensures fault == None <==> !MergeRaises(SampleSeqs(items))
    ensures fault.Some? ==> fault == Some(NullReference)
    ensures fault == None ==> merged[..] == MergeSpec(items)
  {
    var n := |items|;
    ghost var s := SampleSeqs(items);
    merged := new Series[n];
    for i := 0 to n
      invariant forall k :: 0 <= k < i ==> merged[k] == Series(items[k].name, [])
    {
      merged[i] := Series(items[i].name, []);
    }

    // cursor k indexes the next unread sample of tag k
    var row := new nat[n];
    for i := 0 to n
      modifies row
      invariant forall k :: 0 <= k < i ==> row[k] == 0
    {
      row[i] := 0;
    }
    assert row[..] == Start(n);

    var haveMoreData := true;
    fault := None;
    ghost var done: seq<Row> := [];
    assert merged[..] == Partial(items, done);
    while haveMoreData
      invariant Cursors(s, row[..])
      invariant forall j :: 0 <= j < |done| ==> |done[j].cells| == n
      invariant forall j :: 0 <= j < |done| ==> !CopiesNull(done[j])
      invariant merged[..] == Partial(items, done)
      invariant haveMoreData ==> done + MergeFrom(s, row[..]) == MergeTable(s)
      invariant !haveMoreData ==> done == MergeTable(s)
      invariant fault == None
      decreases Remaining(s, row[..], n) + (if haveMoreData then 1 else 0)
    {
      ghost var cur := row[..];
      var minTs, minTsCol := FindMinTimestamp(items, row);
      ghost var r := Row(minTs, StepCells(s, cur, minTs));
      haveMoreData, fault := CopyStep(items, row, merged, minTs);
      if fault.Some? {
        NextRow(s, done, cur);
        return;
      }
      MergeTurn(items, done, cur, minTs, merged[..], row[..], haveMoreData);
      done := done + [r];
    }
  }

  /** A loop turn that does not throw keeps the loop's invariants, with its row
      appended to the rows done, and brings the loop closer to its end. */
  lemma MergeTurn(items: seq<Series>, done: seq<Row>, cur: seq<nat>, m: Timestamp,
                  after: seq<Series>, next: seq<nat>, more: bool)
    requires Cursors(SampleSeqs(items), cur) && m == MinHead(SampleSeqs(items), cur, |items|)
    requires forall j :: 0 <= j < |done| ==> |done[j].cells| == |items|
    requires forall j :: 0 <= j < |done| ==> !CopiesNull(done[j])
    requires done + MergeFrom(SampleSeqs(items), cur) == MergeTable(SampleSeqs(items))
    requires !CopiesNull(Row(m, StepCells(SampleSeqs(items), cur, m)))
    requires after == Appended(Partial(items, done), StepCells(SampleSeqs(items), cur, m))
    requires next == Advance(SampleSeqs(items), cur, m)
    requires more == MoreData(SampleSeqs(items), cur, m)
    ensures Cursors(SampleSeqs(items), next)
    ensures forall j :: 0 <= j < |done| + 1 ==> |(done + [Row(m, StepCells(SampleSeqs(items), cur, m))])[j].cells| == |items|
    ensures forall j :: 0 <= j < |done| + 1 ==> !CopiesNull((done + [Row(m, StepCells(SampleSeqs(items), cur, m))])[j])
    ensures after == Partial(items, done + [Row(m, StepCells(SampleSeqs(items), cur, m))])
    ensures more ==>
      done + [Row(m, StepCells(SampleSeqs(items), cur, m))] + MergeFrom(SampleSeqs(items), next) == MergeTable(SampleSeqs(items))
    ensures !more ==> done + [Row(m, StepCells(SampleSeqs(items), cur, m))] == MergeTable(SampleSeqs(items))
    ensures Remaining(SampleSeqs(items), next, |items|) + (if more then 1 else 0) < Remaining(SampleSeqs(items), cur, |items|) + 1
  {
    var s := SampleSeqs(items);
    var r := Row(m, StepCells(s, cur, m));
    MergeStep(s, done, cur, m);
    PartialSnoc(items, done, r, Partial(items, done), after);
    DoneSnoc(done, r, |items|);
  }

  /** The rows built so far stay rows of n cells with no copied null value. */
  lemma DoneSnoc(done: seq<Row>, r: Row, n: nat)
    requires forall j :: 0 <= j < |done| ==> |done[j].cells| == n
    requires forall j :: 0 <= j < |done| ==> !CopiesNull(done[j])
    requires |r.cells| == n && !CopiesNull(r)
    ensures forall j :: 0 <= j < |done + [r]| ==> |(done + [r])[j].cells| == n
    ensures forall j :: 0 <= j < |done + [r]| ==> !CopiesNull((done + [r])[j])
  {
  }

  /** The row a loop turn builds is the next row of the merge table. */
  lemma NextRow(s: seq<seq<Sample>>, done: seq<Row>, cur: seq<nat>)
    requires Cursors(s, cur) && done + MergeFrom(s, cur) == MergeTable(s)
    ensures |done| < |MergeTable(s)|
    ensures MergeTable(s)[|done|] == Row(MinHead(s, cur, |s|), StepCells(s, cur, MinHead(s, cur, |s|)))
  {
    MergeUnfold(s, cur);
    assert MergeTable(s)[|done|] == MergeFrom(s, cur)[0];
  }

  /** The column a turn traces: the first tag whose head carries the minimum
      m, or -1 when no head is earlier than DateTime.MaxValue. */
  predicate TracedColumn(s: seq<seq<Sample>>, cur: seq<nat>, m: Timestamp, col: int)
    requires Cursors(s, cur)
  {
    && (col == -1 <==> forall k :: 0 <= k < |s| && cur[k] < |s[k]| ==> s[k][cur[k]].timestamp == MaxTicks)
    && (0 <= col ==>
          col < |s| && cur[col] < |s[col]| && s[col][cur[col]].timestamp == m &&
          forall k :: 0 <= k < col && cur[k] < |s[k]| ==> s[k][cur[k]].timestamp > m)
  }

  /** The first loop of a merge step: the minimum head timestamp, and the
      column it traces. */
  method FindMinTimestamp(items: seq<Series>, row: array<nat>) returns (minTs: Timestamp, minTsCol: int)
    requires Cursors(SampleSeqs(items), row[..])
    ensures minTs == MinHead(SampleSeqs(items), row[..], |items|)
    ensures TracedColumn(SampleSeqs(items), row[..], minTs, minTsCol)
  {
    ghost var s := SampleSeqs(items);
    minTsCol := -1;
    minTs := MaxTicks;
    for i := 0 to |items|
      invariant minTs == MinHead(s, row[..], i)
      invariant forall k :: 0 <= k < i && row[k] < |items[k].samples| ==> minTs <= items[k].samples[row[k]].timestamp
      invariant -1 <= minTsCol < i
      invariant minTsCol == -1 ==> minTs == MaxTicks
      invariant 0 <= minTsCol ==>
        minTs < MaxTicks && row[minTsCol] < |items[minTsCol].samples| &&
        items[minTsCol].samples[row[minTsCol]].timestamp == minTs &&
        forall k :: 0 <= k < minTsCol && row[k] < |items[k].samples| ==> items[k].samples[row[k]].timestamp > minTs
    {
      if row[i] >= |items[i].samples| {
        // no data for this tag
      } else if minTs > items[i].samples[row[i]].timestamp {
        minTs := items[i].samples[row[i]].timestamp;
        minTsCol := i;
      }
    }
  }

  /** Each series with its cell of a step appended. */
  function Appended(ss: seq<Series>, cells: seq<Cell>): (r: seq<Series>)
    requires |cells| == |ss|
    ensures |r| == |ss|
    ensures forall k :: 0 <= k < |ss| ==> r[k] == Series(ss[k].name, ss[k].samples + [cells[k].Out()])
  {
    seq(|ss|, k requires 0 <= k < |ss| => Series(ss[k].name, ss[k].samples + [cells[k].Out()]))
  }

  /** The second loop of a merge step: every tag whose head is stamped minTs
      gets that sample and advances, every other tag a placeholder; the result
      says whether an advanced cursor still has samples. */
  method CopyStep(items: seq<Series>, row: array<nat>, merged: array<Series>, minTs: Timestamp)
    returns (haveMoreData: bool, fault: Option<Fault>)
    requires Cursors(SampleSeqs(items), row[..])
    requires merged.Length == |items|
    modifies row, merged
    ensures fault == None <==> !CopiesNull(Row(minTs, StepCells(SampleSeqs(items), old(row[..]), minTs)))
    ensures fault.Some? ==> fault == Some(NullReference)
    ensures fault == None ==> row[..] == Advance(SampleSeqs(items), old(row[..]), minTs)
    ensures fault == None ==> merged[..] == Appended(old(merged[..]), StepCells(SampleSeqs(items), old(row[..]), minTs))
    ensures fault == None ==> haveMoreData == MoreData(SampleSeqs(items), old(row[..]), minTs)
  {
    ghost var s := SampleSeqs(items);
    ghost var cur := row[..];
    ghost var step := StepCells(s, cur, minTs);
    ghost var next := Advance(s, cur, minTs);
    ghost var before := merged[..];
    ghost var after := Appended(before, step);
    var n := |items|;
    assert row.Length == n && |s| == n && |cur| == n;
    haveMoreData := false;
    fault := None;
    for i := 0 to n
      invariant forall k :: 0 <= k < n ==> row[k] == if k < i then next[k] else cur[k]
      invariant forall k :: 0 <= k < n ==> merged[k] == if k < i then after[k] else before[k]
      invariant haveMoreData <==> exists k :: 0 <= k < i && Matches(s, cur, minTs, k) && cur[k] + 1 < |s[k]|
      invariant forall k :: 0 <= k < i ==> !(step[k].Copied? && step[k].sample.value == None)
    {
      var samples := items[i].samples;
      if row[i] < |samples| && samples[row[i]].timestamp == minTs {
        assert step[i] == Copied(s[i][cur[i]]) && next[i] == cur[i] + 1;
        merged[i] := Series(merged[i].name, merged[i].samples + [samples[row[i]]]);
        // the trace message of the copy: Value.ToString() on a null value throws
        if samples[row[i]].value == None {
          fault := Some(NullReference);
          assert Row(minTs, step).cells[i] == step[i];
          return;
        }
        row[i] := row[i] + 1;
        if row[i] < |samples| {
          haveMoreData := true;
        }
      } else {
        assert step[i] == Filled(minTs) && next[i] == cur[i];
        // no sample at the minimum: append a placeholder
        var itemvalue := Sample(minTs, None, DaQuality(Uncertain), NoData);
        merged[i] := Series(merged[i].name, merged[i].samples + [itemvalue]);
      }
      assert row[i] == next[i];
      assert merged[i] == after[i];
    }
    assert row[..] == next;
    assert merged[..] == after;
    assert Row(minTs, step).cells == step;
  }

  // ---------------------------------------------------------------------------
  // The older table layout (Program.cs OutputTable)
  // ---------------------------------------------------------------------------

  /** What separates tag i's part of a line from the previous tag's: nothing before the first. */
  function Lead(i: nat): string
  {
    if i == 0 then "" else ","
  }

  /** The format ",{0} timestamp, {0} value, {0} quality" applied to a tag name. */
  function LegacyTableTitle(name: string): string
  {
    "," + name + " timestamp, " + name + " value, " + name + " quality"
  }

  /** OutputTable's header text for tag i. */
  function LegacyTableHeading(name: string, i: nat): Emission
  {
    Text(Lead(i) + LegacyTableTitle(name))
  }

  function LegacyTableHeadings(ss: seq<Series>): (hs: seq<Emission>)
    ensures |hs| == |ss| && forall i :: 0 <= i < |ss| ==> hs[i] == LegacyTableHeading(ss[i].name, i)
  {
    seq(|ss|, i requires 0 <= i < |ss| => LegacyTableHeading(ss[i].name, i))
  }

  /** OutputTable's text for tag i in row j: the tag's own timestamp, value and
      quality, or ",," past the end of its series; a null value throws on ToString(). */
  function LegacyTableCell(ss: seq<Series>, i: nat, j: nat, fmt: Option<string>, render: Render): Emission
    requires i < |ss|
  {
    if j < |ss[i].samples| then
      var x := ss[i].samples[j];
      if x.value == None then Abort(Lead(i), NullReference)
      else Text(Lead(i) + LegacyTableEntry(GetDatetimeStr(render, x.timestamp, fmt), render.scalar(x.value.value), render.daText(x.quality)))
    else Text(Lead(i) + ",,")
  }

  /** The format "{0},{1},{2}" applied to timestamp, value and quality texts. */
  function LegacyTableEntry(ts: string, value: string, quality: string): string
  {
    ts + "," + value + "," + quality
  }

  function LegacyTableCells(ss: seq<Series>, j: nat, fmt: Option<string>, render: Render): (cs: seq<Emission>)
    ensures |cs| == |ss| && forall i :: 0 <= i < |ss| ==> cs[i] == LegacyTableCell(ss, i, j, fmt, render)
  {
    seq(|ss|, i requires 0 <= i < |ss| => LegacyTableCell(ss, i, j, fmt, render))
  }

  function LegacyTableRow(ss: seq<Series>, j: nat, fmt: Option<string>, render: Render): Emission
  {
    AndThen(Sequence(LegacyTableCells(ss, j, fmt, render)), EndLine)
  }

  function LegacyTableRows(ss: seq<Series>, rows: nat, fmt: Option<string>, render: Render): (rs: seq<Emission>)
    ensures |rs| == rows && forall j :: 0 <= j < rows ==> rs[j] == LegacyTableRow(ss, j, fmt, render)
  {
    seq(rows, j requires 0 <= j < rows => LegacyTableRow(ss, j, fmt, render))
  }

  /** Everything OutputTable writes: the header line, then (reading the row count
      from series 0, which throws when there is none) one line per entry of series 0. */
  function LegacyTable(ss: seq<Series>, fmt: Option<string>, render: Render): Emission
  {
    var header := AndThen(Sequence(LegacyTableHeadings(ss)), EndLine);
    if |ss| == 0 then AndThen(header, Abort("", IndexOutOfRange))
    else AndThen(header, Sequence(LegacyTableRows(ss, |ss[0].samples|, fmt, render)))
  }

  /** OutputTable(sw, OPCHDAItemValues, OutputTimestampFormat); the exception, if
      one is raised, escapes to the caller. */
  method OutputTable(sw: TextSink, ss: seq<Series>, fmt: Option<string>, render: Render) returns (fault: Option<Fault>)
    modifies sw
    ensures sw.stream == old(sw.stream).Then(LegacyTable(ss, fmt, render).out)
    ensures fault == LegacyTable(ss, fmt, render).fault
    ensures sw.closed == old(sw.closed)
  {
    ghost var start := sw.stream;
    OutputTableHeader(sw, ss);
    ghost var header := AndThen(Sequence(LegacyTableHeadings(ss)), EndLine);
    ghost var mid := sw.stream;
    if |ss| == 0 {
      fault := Some(IndexOutOfRange);
      AndThenStream(start, header, Abort("", IndexOutOfRange));
      WriteNothing(mid);
      return;
    }

    // the row count is series 0's, since the maximum loop compares series 0 with itself
    var maxRows := |ss[0].samples|;
    for i := 1 to |ss|
      invariant maxRows == |ss[0].samples|
    {
      var count := |ss[0].samples|;
      if maxRows < count {
        maxRows := count;
      }
    }

    fault := OutputTableRows(sw, ss, maxRows, fmt, render);
    AndThenStream(start, header, Sequence(LegacyTableRows(ss, maxRows, fmt, render)));
  }

  /** The row loop of OutputTable. */
  method OutputTableRows(sw: TextSink, ss: seq<Series>, maxRows: nat, fmt: Option<string>, render: Render)
    returns (fault: Option<Fault>)
    modifies sw
    ensures sw.stream == old(sw.stream).Then(Sequence(LegacyTableRows(ss, maxRows, fmt, render)).out)
    ensures fault == Sequence(LegacyTableRows(ss, maxRows, fmt, render)).fault
    ensures sw.closed == old(sw.closed)
  {
    ghost var start := sw.stream;
    ghost var rs := LegacyTableRows(ss, maxRows, fmt, render);
    fault := None;
    var j := 0;
    while j < maxRows && fault == None
      invariant 0 <= j <= maxRows
      invariant sw.stream == start.Then(Sequence(rs[..j]).out) && fault == Sequence(rs[..j]).fault
      invariant sw.closed == old(sw.closed)
    {
      SequenceStep(start, rs, j);
      fault := OutputTableRow(sw, ss, j, fmt, render);
      j := j + 1;
    }
    RunDone(rs, j);
  }

  /** The header loop of OutputTable. */
  method OutputTableHeader(sw: TextSink, ss: seq<Series>)
    modifies sw
    ensures sw.stream == old(sw.stream).Then(AndThen(Sequence(LegacyTableHeadings(ss)), EndLine).out)
    ensures Sequence(LegacyTableHeadings(ss)).fault == None
    ensures sw.closed == old(sw.closed)
  {
    ghost var start := sw.stream;
    ghost var hs := LegacyTableHeadings(ss);
    for i := 0 to |ss|
      invariant sw.stream == start.Then(Sequence(hs[..i]).out) && Sequence(hs[..i]).fault == None
      invariant sw.closed == old(sw.closed)
    {
      ghost var here := sw.stream;
      if i > 0 {
        sw.Write(",");
      } else {
        WriteNothing(here);
      }
      var text := LegacyTableTitle(ss[i].name);
      sw.Write(text);
      WriteWrite(here, Lead(i), text);
      RunText(start, hs, i, Lead(i) + text);
    }
    RunDone(hs, |ss|);
    WriteLineIsThen(sw.stream);
    sw.WriteLine();
    AndThenStream(start, Sequence(hs), EndLine);
  }

  /** One row of OutputTable's inner loop. */
  method OutputTableRow(sw: TextSink, ss: seq<Series>, j: nat, fmt: Option<string>, render: Render)
    returns (fault: Option<Fault>)
    modifies sw
    ensures sw.stream == old(sw.stream).Then(LegacyTableRow(ss, j, fmt, render).out)
    ensures fault == LegacyTableRow(ss, j, fmt, render).fault
    ensures sw.closed == old(sw.closed)
  {
    ghost var start := sw.stream;
    ghost var cs := LegacyTableCells(ss, j, fmt, render);
    fault := None;
    var i := 0;
    while i < |ss| && fault == None
      invariant 0 <= i <= |ss|
      invariant sw.stream == start.Then(Sequence(cs[..i]).out) && fault == Sequence(cs[..i]).fault
      invariant sw.closed == old(sw.closed)
    {
      ghost var here := sw.stream;
      if i > 0 {
        sw.Write(",");
      } else {
        WriteNothing(here);
      }
      if j < |ss[i].samples| {
        var x := ss[i].samples[j];
        var ts := GetDatetimeStr(render, x.timestamp, fmt);
        if x.value == None {
          fault := Some(NullReference);
          RunAbort(start, cs, i, Lead(i), NullReference);
        } else {
          var text := LegacyTableEntry(ts, render.scalar(x.value.value), render.daText(x.quality));
          sw.Write(text);
          WriteWrite(here, Lead(i), text);
          RunText(start, cs, i, Lead(i) + text);
        }
      } else {
        sw.Write(",,");
        WriteWrite(here, Lead(i), ",,");
        RunText(start, cs, i, Lead(i) + ",,");
      }
      i := i + 1;
    }
    RunDone(cs, i);
    if fault == None {
      WriteLineIsThen(sw.stream);
      sw.WriteLine();
      AndThenStream(start, Sequence(cs), EndLine);
    }
  }

  // ---------------------------------------------------------------------------
  // The older merged layout (Program.cs OutputMerged)
  // ---------------------------------------------------------------------------

  /** OutputMerged's header text for tag i. */
  function LegacyMergedHeading(name: string, i: nat): Emission
  {
    Text(if i == 0 then "Timestamp, " + name + " value, " + name + " quality"
         else "," + name + " value, " + name + " quality")
  }

  function LegacyMergedHeadings(ss: seq<Series>): (hs: seq<Emission>)
    ensures |hs| == |ss| && forall i :: 0 <= i < |ss| ==> hs[i] == LegacyMergedHeading(ss[i].name, i)
  {
    seq(|ss|, i requires 0 <= i < |ss| => LegacyMergedHeading(ss[i].name, i))
  }

  /** OutputMerged's text for tag i in row j: value (empty when null) and
      quality, each after a comma; reading past the end of the series throws. */
  function LegacyMergedCell(ss: seq<Series>, i: nat, j: nat, render: Render): Emission
    requires i < |ss|
  {
    if j < |ss[i].samples| then
      var x := ss[i].samples[j];
      Text(LegacyMergedEntry(if x.value == None then "" else render.scalar(x.value.value), render.daText(x.quality)))
    else Abort("", ArgumentOutOfRange)
  }

  /** A comma and the value text, then a comma and the quality text. */
  function LegacyMergedEntry(value: string, quality: string): string
  {
    "," + value + "," + quality
  }

  function LegacyMergedCells(ss: seq<Series>, j: nat, render: Render): (cs: seq<Emission>)
    ensures |cs| == |ss| && forall i :: 0 <= i < |ss| ==> cs[i] == LegacyMergedCell(ss, i, j, render)
  {
    seq(|ss|, i requires 0 <= i < |ss| => LegacyMergedCell(ss, i, j, render))
  }

  /** Row j: series 0's timestamp, then every tag's cell. */
  function LegacyMergedRow(ss: seq<Series>, j: nat, fmt: Option<string>, render: Render): Emission
    requires 0 < |ss| && j < |ss[0].samples|
  {
    AndThen(AndThen(Text(GetDatetimeStr(render, ss[0].samples[j].timestamp, fmt)), Sequence(LegacyMergedCells(ss, j, render))), EndLine)
  }

  function LegacyMergedRows(ss: seq<Series>, fmt: Option<string>, render: Render): (rs: seq<Emission>)
    requires 0 < |ss|
    ensures |rs| == |ss[0].samples|
    ensures forall j :: 0 <= j < |ss[0].samples| ==> rs[j] == LegacyMergedRow(ss, j, fmt, render)
  {
    seq(|ss[0].samples|, j requires 0 <= j < |ss[0].samples| => LegacyMergedRow(ss, j, fmt, render))
  }

  /** Everything OutputMerged writes: nothing at all without a series (reading
      series 0's name throws), else the header line and one line per entry of series 0. */
  function LegacyMerged(ss: seq<Series>, fmt: Option<string>, render: Render): Emission
  {
    if |ss| == 0 then Abort("", IndexOutOfRange)
    else AndThen(AndThen(Sequence(LegacyMergedHeadings(ss)), EndLine), Sequence(LegacyMergedRows(ss, fmt, render)))
  }

  /** OutputMerged(sw, OPCHDAItemValues, OutputTimestampFormat); the exception, if
      one is raised, escapes to the caller. */
  method OutputMerged(sw: TextSink, ss: seq<Series>, fmt: Option<string>, render: Render) returns (fault: Option<Fault>)
    modifies sw
    ensures sw.stream == old(sw.stream).Then(LegacyMerged(ss, fmt, render).out)
    ensures fault == LegacyMerged(ss, fmt, render).fault
    ensures sw.closed == old(sw.closed)
  {
    ghost var start := sw.stream;
    if |ss| == 0 {
      WriteNothing(start);
      return Some(IndexOutOfRange);
    }
    OutputMergedHeader(sw, ss);
    ghost var header := AndThen(Sequence(LegacyMergedHeadings(ss)), EndLine);
    fault := OutputMergedRows(sw, ss, fmt, render);
    AndThenStream(start, header, Sequence(LegacyMergedRows(ss, fmt, render)));
  }

  /** The header of OutputMerged: the first tag's part, then a loop over the others. */
  method OutputMergedHeader(sw: TextSink, ss: seq<Series>)
    requires 0 < |ss|
    modifies sw
    ensures sw.stream == old(sw.stream).Then(AndThen(Sequence(LegacyMergedHeadings(ss)), EndLine).out)
    ensures Sequence(LegacyMergedHeadings(ss)).fault == None
    ensures sw.closed == old(sw.closed)
  {
    ghost var start := sw.stream;
    ghost var hs := LegacyMergedHeadings(ss);
    var name := ss[0].name;
    var text := "Timestamp, " + name + " value, " + name + " quality";
    sw.Write(text);
    assert hs[0] == Text(text);
    assert hs[..0] == [];
    ThenFresh(start);
    RunText(start, hs, 0, text);
    for i := 1 to |ss|
      invariant sw.stream == start.Then(Sequence(hs[..i]).out) && Sequence(hs[..i]).fault == None
      invariant sw.closed == old(sw.closed)
    {
      name := ss[i].name;
      text := "," + name + " value, " + name + " quality";
      sw.Write(text);
      assert hs[i] == Text(text);
      RunText(start, hs, i, text);
    }
    RunDone(hs, |ss|);
    WriteLineIsThen(sw.stream);
    sw.WriteLine();
    AndThenStream(start, Sequence(hs), EndLine);
  }

  /** The row loop of OutputMerged. */
  method OutputMergedRows(sw: TextSink, ss: seq<Series>, fmt: Option<string>, render: Render)
    returns (fault: Option<Fault>)
    requires 0 < |ss|
    modifies sw
    ensures sw.stream == old(sw.stream).Then(Sequence(LegacyMergedRows(ss, fmt, render)).out)
    ensures fault == Sequence(LegacyMergedRows(ss, fmt, render)).fault
    ensures sw.closed == old(sw.closed)
  {
    ghost var start := sw.stream;
    ghost var rs := LegacyMergedRows(ss, fmt, render);
    fault := None;
    var j := 0;
    while j < |ss[0].samples| && fault == None
      invariant 0 <= j <= |ss[0].samples|
      invariant sw.stream == start.Then(Sequence(rs[..j]).out) && fault == Sequence(rs[..j]).fault
      invariant sw.closed == old(sw.closed)
    {
      SequenceStep(start, rs, j);
      fault := OutputMergedRow(sw, ss, j, fmt, render);
      j := j + 1;
    }
    RunDone(rs, j);
  }

  /** One row of OutputMerged. */
  method OutputMergedRow(sw: TextSink, ss: seq<Series>, j: nat, fmt: Option<string>, render: Render)
    returns (fault: Option<Fault>)
    requires 0 < |ss| && j < |ss[0].samples|
    modifies sw
    ensures sw.stream == old(sw.stream).Then(LegacyMergedRow(ss, j, fmt, render).out)
    ensures fault == LegacyMergedRow(ss, j, fmt, render).fault
    ensures sw.closed == old(sw.closed)
  {
    ghost var start := sw.stream;
    var ts := GetDatetimeStr(render, ss[0].samples[j].timestamp, fmt);
    sw.Write(ts);
    ghost var lead := sw.stream;
    ghost var cs := LegacyMergedCells(ss, j, render);
    fault := None;
    var i := 0;
    while i < |ss| && fault == None
      invariant 0 <= i <= |ss|
      invariant sw.stream == lead.Then(Sequence(cs[..i]).out) && fault == Sequence(cs[..i]).fault
      invariant sw.closed == old(sw.closed)
    {
      if j < |ss[i].samples| {
        var x := ss[i].samples[j];
        var value := if x.value == None then "" else render.scalar(x.value.value);
        // the quality is a struct, so its null test never holds
        var text := LegacyMergedEntry(value, render.daText(x.quality));
        sw.Write(text);
        RunText(lead, cs, i, text);
      } else {
        fault := Some(ArgumentOutOfRange);
        WriteNothing(sw.stream);
        RunAbort(lead, cs, i, "", ArgumentOutOfRange);
      }
      i := i + 1;
    }
    RunDone(cs, i);
    AndThenStream(start, Text(ts), Sequence(cs));
    if fault == None {
      WriteLineIsThen(sw.stream);
      sw.WriteLine();
      AndThenStream(start, AndThen(Text(ts), Sequence(cs)), EndLine);
    }
  }

  // ---------------------------------------------------------------------------
  // What the older layouts write
  // ---------------------------------------------------------------------------

  /** The value's text, or `absent` for a null value. */
  function ValueText(x: Sample, render: Render, absent: string): string
  {
    if x.value == None then absent else render.scalar(x.value.value)
  }

  /** The comma-separated fields OutputTable's header gives one tag: an empty
      one first, so four against the three of every data cell. */
  function LegacyTableTitleFields(name: string): (f: seq<string>)
    ensures |f| == 4
  {
    ["", name + " timestamp", " " + name + " value", " " + name + " quality"]
  }

  function LegacyTableTitleCells(ss: seq<Series>): (cs: seq<seq<string>>)
    ensures |cs| == |ss| && forall i :: 0 <= i < |ss| ==> cs[i] == LegacyTableTitleFields(ss[i].name)
  {
    seq(|ss|, i requires 0 <= i < |ss| => LegacyTableTitleFields(ss[i].name))
  }

  /** The fields of tag i in OutputTable's row j: the tag's own timestamp, value
      and quality, or three empty fields past the end of its series. */
  function LegacyTableCellFields(ss: seq<Series>, i: nat, j: nat, fmt: Option<string>, render: Render): (f: seq<string>)
    requires i < |ss|
    ensures |f| == 3
  {
    if j < |ss[i].samples| then
      var x := ss[i].samples[j];
      [GetDatetimeStr(render, x.timestamp, fmt), ValueText(x, render, ""), render.daText(x.quality)]
    else ["", "", ""]
  }

  function LegacyTableRowCells(ss: seq<Series>, j: nat, fmt: Option<string>, render: Render): (cs: seq<seq<string>>)
    ensures |cs| == |ss| && forall i :: 0 <= i < |ss| ==> cs[i] == LegacyTableCellFields(ss, i, j, fmt, render)
  {
    seq(|ss|, i requires 0 <= i < |ss| => LegacyTableCellFields(ss, i, j, fmt, render))
  }

  /** OutputTable's lines: the header, then one line per entry of series 0. */
  function LegacyTableLines(ss: seq<Series>, fmt: Option<string>, render: Render): (ls: seq<string>)
    requires 0 < |ss|
    ensures |ls| == 1 + |ss[0].samples|
    ensures ls[0] == Join(Flatten(LegacyTableTitleCells(ss)), ",")
    ensures forall j :: 0 <= j < |ss[0].samples| ==> ls[j + 1] == Join(Flatten(LegacyTableRowCells(ss, j, fmt, render)), ",")
  {
    [Join(Flatten(LegacyTableTitleCells(ss)), ",")]
      + seq(|ss[0].samples|, j requires 0 <= j < |ss[0].samples| => Join(Flatten(LegacyTableRowCells(ss, j, fmt, render)), ","))
  }

  /** OutputTable gets through: there is a series, and no value it prints is null. */
  predicate LegacyTableWritable(ss: seq<Series>)
  {
    0 < |ss| && forall i, j :: 0 <= i < |ss| && 0 <= j < |ss[0].samples| && j < |ss[i].samples| ==> ss[i].samples[j].value.Some?
  }

  lemma LegacyTableTitleJoin(name: string)
    ensures LegacyTableTitle(name) == Join(LegacyTableTitleFields(name), ",")
  {
    JoinSmall("", name + " timestamp", " " + name + " value", " " + name + " quality", ",");
    assert " timestamp, " == " timestamp" + "," + " ";
    assert " value, " == " value" + "," + " ";
  }

  lemma LegacyTableCellJoin(ss: seq<Series>, i: nat, j: nat, fmt: Option<string>, render: Render)
    requires i < |ss| && LegacyTableCell(ss, i, j, fmt, render).fault == None
    ensures LegacyTableCell(ss, i, j, fmt, render) == Text(Lead(i) + Join(LegacyTableCellFields(ss, i, j, fmt, render), ","))
  {
    var f := LegacyTableCellFields(ss, i, j, fmt, render);
    JoinSmall(f[0], f[1], f[2], "", ",");
    if j >= |ss[i].samples| {
      assert Join(f, ",") == ",,";
    }
  }

  lemma LegacyTableHeaderText(ss: seq<Series>)
    ensures AndThen(Sequence(LegacyTableHeadings(ss)), EndLine) == Lines([Join(Flatten(LegacyTableTitleCells(ss)), ",")])
  {
    var hs := LegacyTableHeadings(ss);
    var cs := LegacyTableTitleCells(ss);
    if |ss| == 0 {
      assert hs == [] && cs == [];
      FreshThen(EndLine.out);
    } else {
      var ps := CellTexts(cs, ",", true);
      forall i | 0 <= i < |ss|
        ensures hs[i] == Text(ps[i])
      {
        LegacyTableTitleJoin(ss[i].name);
      }
      SequenceTexts(hs, ps);
      JoinLeading(cs, ",");
      TextEndLine(Join(Flatten(cs), ","));
    }
  }

  lemma LegacyTableRowFault(ss: seq<Series>, j: nat, fmt: Option<string>, render: Render)
    ensures LegacyTableRow(ss, j, fmt, render).fault == None
        <==> forall i :: 0 <= i < |ss| && j < |ss[i].samples| ==> ss[i].samples[j].value.Some?
    ensures LegacyTableRow(ss, j, fmt, render).fault in {None, Some(NullReference)}
  {
    var es := LegacyTableCells(ss, j, fmt, render);
    SequenceFault(es);
    assert forall i :: 0 <= i < |ss| ==> (es[i].fault == None <==> (j < |ss[i].samples| ==> ss[i].samples[j].value.Some?));
  }

  lemma LegacyTableRowText(ss: seq<Series>, j: nat, fmt: Option<string>, render: Render)
    requires LegacyTableRow(ss, j, fmt, render).fault == None
    ensures LegacyTableRow(ss, j, fmt, render) == Lines([Join(Flatten(LegacyTableRowCells(ss, j, fmt, render)), ",")])
  {
    var es := LegacyTableCells(ss, j, fmt, render);
    var cs := LegacyTableRowCells(ss, j, fmt, render);
    SequenceFault(es);
    {
      if |ss| == 0 {
        assert es == [] && cs == [];
        FreshThen(EndLine.out);
      } else {
        var ps := CellTexts(cs, ",", true);
        forall i | 0 <= i < |ss|
          ensures es[i] == Text(ps[i])
        {
          assert es[i].fault == None;
          LegacyTableCellJoin(ss, i, j, fmt, render);
        }
        SequenceTexts(es, ps);
        JoinLeading(cs, ",");
        TextEndLine(Join(Flatten(cs), ","));
      }
    }
  }

  /** When OutputTable raises: with no series, after the (empty) header line, an
      index exception; otherwise a null-reference exception exactly when a value
      on one of series 0's lines is null. */
  lemma LegacyTableFault(ss: seq<Series>, fmt: Option<string>, render: Render)
    ensures |ss| == 0 ==> LegacyTable(ss, fmt, render) == Emission(Stream([""], ""), Some(IndexOutOfRange))
    ensures LegacyTable(ss, fmt, render).fault == None <==> LegacyTableWritable(ss)
    ensures 0 < |ss| && !LegacyTableWritable(ss) ==> LegacyTable(ss, fmt, render).fault == Some(NullReference)
  {
    LegacyTableHeaderText(ss);
    var header := Join(Flatten(LegacyTableTitleCells(ss)), ",");
    if |ss| == 0 {
      assert [header] == [""];
    } else {
      LegacyTableRowsFault(ss, fmt, render);
    }
  }

  /** The rows raise exactly when a value on one of series 0's lines is null, and then with a null-reference exception. */
  lemma LegacyTableRowsFault(ss: seq<Series>, fmt: Option<string>, render: Render)
    requires 0 < |ss|
    ensures Sequence(LegacyTableRows(ss, |ss[0].samples|, fmt, render)).fault == None <==> LegacyTableWritable(ss)
    ensures Sequence(LegacyTableRows(ss, |ss[0].samples|, fmt, render)).fault in {None, Some(NullReference)}
  {
    var rows := |ss[0].samples|;
    var rs := LegacyTableRows(ss, rows, fmt, render);
    SequenceFault(rs);
    if LegacyTableWritable(ss) {
      forall j | 0 <= j < rows
        ensures rs[j].fault == None
      {
        LegacyTableRowFault(ss, j, fmt, render);
      }
    } else {
      var j, i :| 0 <= i < |ss| && 0 <= j < rows && j < |ss[i].samples| && ss[i].samples[j].value == None;
      LegacyTableRowFault(ss, j, fmt, render);
      assert rs[j].fault != None;
      var k :| 0 <= k < |rs| && Sequence(rs).fault == rs[k].fault;
      LegacyTableRowFault(ss, k, fmt, render);
    }
  }

  /** What OutputTable writes when it gets through: the header, then one line per
      entry of series 0, whatever the lengths of the other series. */
  lemma LegacyTableOutput(ss: seq<Series>, fmt: Option<string>, render: Render)
    requires LegacyTableWritable(ss)
    ensures LegacyTable(ss, fmt, render) == Lines(LegacyTableLines(ss, fmt, render))
  {
    LegacyTableHeaderText(ss);
    LegacyTableFault(ss, fmt, render);
    var header := Join(Flatten(LegacyTableTitleCells(ss)), ",");
    var rows := |ss[0].samples|;
    var rs := LegacyTableRows(ss, rows, fmt, render);
    var ls := LegacyTableLines(ss, fmt, render)[1..];
    var blocks := seq(rows, j requires 0 <= j < rows => [ls[j]]);
    SequenceFault(rs);
    forall j | 0 <= j < rows
      ensures rs[j] == Lines(blocks[j])
    {
      LegacyTableRowText(ss, j, fmt, render);
    }
    SequenceLines(rs, blocks);
    FlattenSingletons(ls);
    LinesThen([header], ls);
  }

  /** OutputTable's header gives each tag four fields, its rows three. */
  lemma LegacyTableMisaligned(ss: seq<Series>, j: nat, fmt: Option<string>, render: Render)
    ensures |Flatten(LegacyTableTitleCells(ss))| == 4 * |ss|
    ensures |Flatten(LegacyTableRowCells(ss, j, fmt, render))| == 3 * |ss|
  {
    FlattenLength(LegacyTableTitleCells(ss), 4);
    FlattenLength(LegacyTableRowCells(ss, j, fmt, render), 3);
  }

  /** The comma-separated fields OutputMerged's header gives tag i (the first
      tag's part also holds the leading "Timestamp"). */
  function LegacyMergedTitleFields(name: string, i: nat): (f: seq<string>)
  {
    if i == 0 then ["Timestamp", " " + name + " value", " " + name + " quality"]
    else [name + " value", " " + name + " quality"]
  }

  function LegacyMergedTitleCells(ss: seq<Series>): (cs: seq<seq<string>>)
    ensures |cs| == |ss| && forall i :: 0 <= i < |ss| ==> cs[i] == LegacyMergedTitleFields(ss[i].name, i)
  {
    seq(|ss|, i requires 0 <= i < |ss| => LegacyMergedTitleFields(ss[i].name, i))
  }

  /** The fields tag i adds to OutputMerged's row j: value (empty when null) and quality. */
  function LegacyMergedCellFields(ss: seq<Series>, i: nat, j: nat, render: Render): (f: seq<string>)
    requires i < |ss|
    ensures |f| == 2
  {
    if j < |ss[i].samples| then
      var x := ss[i].samples[j];
      [ValueText(x, render, ""), render.daText(x.quality)]
    else ["", ""]
  }

  function LegacyMergedRowCells(ss: seq<Series>, j: nat, render: Render): (cs: seq<seq<string>>)
    ensures |cs| == |ss| && forall i :: 0 <= i < |ss| ==> cs[i] == LegacyMergedCellFields(ss, i, j, render)
  {
    seq(|ss|, i requires 0 <= i < |ss| => LegacyMergedCellFields(ss, i, j, render))
  }

  /** The fields of OutputMerged's row j: series 0's timestamp, then two per tag. */
  function LegacyMergedRowFields(ss: seq<Series>, j: nat, fmt: Option<string>, render: Render): seq<string>
    requires 0 < |ss| && j < |ss[0].samples|
  {
    [GetDatetimeStr(render, ss[0].samples[j].timestamp, fmt)] + Flatten(LegacyMergedRowCells(ss, j, render))
  }

  /** OutputMerged's lines: the header, then one line per entry of series 0. */
  function LegacyMergedLines(ss: seq<Series>, fmt: Option<string>, render: Render): (ls: seq<string>)
    requires 0 < |ss|
    ensures |ls| == 1 + |ss[0].samples|
    ensures ls[0] == Join(Flatten(LegacyMergedTitleCells(ss)), ",")
    ensures forall j :: 0 <= j < |ss[0].samples| ==> ls[j + 1] == Join(LegacyMergedRowFields(ss, j, fmt, render), ",")
  {
    [Join(Flatten(LegacyMergedTitleCells(ss)), ",")]
      + seq(|ss[0].samples|, j requires 0 <= j < |ss[0].samples| => Join(LegacyMergedRowFields(ss, j, fmt, render), ","))
  }

  /** OutputMerged gets through: there is a series and none is shorter than series 0. */
  predicate LegacyMergedWritable(ss: seq<Series>)
  {
    0 < |ss| && forall i :: 0 <= i < |ss| ==> |ss[0].samples| <= |ss[i].samples|
  }

  lemma LegacyMergedTitleJoin(name: string, i: nat)
    ensures LegacyMergedHeading(name, i) == Text((if i == 0 then "" else ",") + Join(LegacyMergedTitleFields(name, i), ","))
  {
    if i == 0 {
      LegacyMergedFirstTitle(name);
    } else {
      LegacyMergedNextTitle(name);
    }
  }

  lemma LegacyMergedFirstTitle(name: string)
    ensures "Timestamp, " + name + " value, " + name + " quality"
         == "" + Join(["Timestamp", " " + name + " value", " " + name + " quality"], ",")
  {
    var a, b := " " + name + " value", " " + name + " quality";
    JoinSmall("Timestamp", a, b, "", ",");
    assert "Timestamp, " + name == "Timestamp" + "," + " " + name;
    assert "Timestamp, " + name + " value, " == "Timestamp" + "," + a + "," + " ";
  }

  lemma LegacyMergedNextTitle(name: string)
    ensures "," + name + " value, " + name + " quality" == "," + Join([name + " value", " " + name + " quality"], ",")
  {
    JoinSmall(name + " value", " " + name + " quality", "", "", ",");
    assert " value, " == " value" + "," + " ";
  }

  lemma LegacyMergedHeaderText(ss: seq<Series>)
    requires 0 < |ss|
    ensures AndThen(Sequence(LegacyMergedHeadings(ss)), EndLine) == Lines([Join(Flatten(LegacyMergedTitleCells(ss)), ",")])
  {
    var hs := LegacyMergedHeadings(ss);
    var cs := LegacyMergedTitleCells(ss);
    var ps := CellTexts(cs, ",", true);
    forall i | 0 <= i < |ss|
      ensures hs[i] == Text(ps[i])
    {
      LegacyMergedTitleJoin(ss[i].name, i);
    }
    SequenceTexts(hs, ps);
    JoinLeading(cs, ",");
    TextEndLine(Join(Flatten(cs), ","));
  }

  lemma LegacyMergedRowFault(ss: seq<Series>, j: nat, fmt: Option<string>, render: Render)
    requires 0 < |ss| && j < |ss[0].samples|
    ensures LegacyMergedRow(ss, j, fmt, render).fault == None <==> forall i :: 0 <= i < |ss| ==> j < |ss[i].samples|
    ensures LegacyMergedRow(ss, j, fmt, render).fault in {None, Some(ArgumentOutOfRange)}
  {
    var es := LegacyMergedCells(ss, j, render);
    SequenceFault(es);
    assert forall i :: 0 <= i < |ss| ==> (es[i].fault == None <==> j < |ss[i].samples|);
    AndThenStream(Fresh, Text(GetDatetimeStr(render, ss[0].samples[j].timestamp, fmt)), Sequence(es));
  }

  lemma LegacyMergedCellJoin(ss: seq<Series>, i: nat, j: nat, render: Render)
    requires i < |ss| && j < |ss[i].samples|
    ensures LegacyMergedCell(ss, i, j, render) == Text("," + Join(LegacyMergedCellFields(ss, i, j, render), ","))
  {
    var f := LegacyMergedCellFields(ss, i, j, render);
    JoinSmall(f[0], f[1], "", "", ",");
  }

  lemma LegacyMergedRowText(ss: seq<Series>, j: nat, fmt: Option<string>, render: Render)
    requires 0 < |ss| && j < |ss[0].samples| && forall i :: 0 <= i < |ss| ==> j < |ss[i].samples|
    ensures LegacyMergedRow(ss, j, fmt, render) == Lines([Join(LegacyMergedRowFields(ss, j, fmt, render), ",")])
  {
    var es := LegacyMergedCells(ss, j, render);
    var cs := LegacyMergedRowCells(ss, j, render);
    var ts := GetDatetimeStr(render, ss[0].samples[j].timestamp, fmt);
    var ps := CellTexts(cs, ",", false);
    forall i | 0 <= i < |ss|
      ensures es[i] == Text(ps[i])
    {
      LegacyMergedCellJoin(ss, i, j, render);
    }
    SequenceTexts(es, ps);
    JoinAfter([ts], cs, ",");
    assert Join([ts], ",") == ts;
    TextEndLine(Join(LegacyMergedRowFields(ss, j, fmt, render), ","));
  }

  /** When OutputMerged raises: without a series, an index exception before anything
      is written; otherwise an argument exception exactly when some series is
      shorter than series 0. */
  lemma LegacyMergedFault(ss: seq<Series>, fmt: Option<string>, render: Render)
    ensures |ss| == 0 ==> LegacyMerged(ss, fmt, render) == Emission(Fresh, Some(IndexOutOfRange))
    ensures LegacyMerged(ss, fmt, render).fault == None <==> LegacyMergedWritable(ss)
    ensures 0 < |ss| && !LegacyMergedWritable(ss) ==> LegacyMerged(ss, fmt, render).fault == Some(ArgumentOutOfRange)
  {
    if 0 < |ss| {
      var hs := LegacyMergedHeadings(ss);
      SequenceFault(hs);
      AndThenStream(Fresh, Sequence(hs), EndLine);
      LegacyMergedRowsFault(ss, fmt, render);
    }
  }

  /** The rows raise exactly when some series is shorter than series 0, and then with an argument exception. */
  lemma LegacyMergedRowsFault(ss: seq<Series>, fmt: Option<string>, render: Render)
    requires 0 < |ss|
    ensures Sequence(LegacyMergedRows(ss, fmt, render)).fault == None <==> LegacyMergedWritable(ss)
    ensures Sequence(LegacyMergedRows(ss, fmt, render)).fault in {None, Some(ArgumentOutOfRange)}
  {
    var rows := |ss[0].samples|;
    var rs := LegacyMergedRows(ss, fmt, render);
    SequenceFault(rs);
    if LegacyMergedWritable(ss) {
      forall j | 0 <= j < rows
        ensures rs[j].fault == None
      {
        LegacyMergedRowFault(ss, j, fmt, render);
      }
    } else {
      var i :| 0 <= i < |ss| && |ss[i].samples| < rows;
      var j := |ss[i].samples|;
      LegacyMergedRowFault(ss, j, fmt, render);
      assert rs[j].fault != None;
      var k :| 0 <= k < |rs| && Sequence(rs).fault == rs[k].fault;
      LegacyMergedRowFault(ss, k, fmt, render);
    }
  }

  /** What OutputMerged writes when it gets through: the header and one line per entry of series 0. */
  lemma LegacyMergedOutput(ss: seq<Series>, fmt: Option<string>, render: Render)
    requires LegacyMergedWritable(ss)
    ensures LegacyMerged(ss, fmt, render) == Lines(LegacyMergedLines(ss, fmt, render))
  {
    LegacyMergedHeaderText(ss);
    var header := Join(Flatten(LegacyMergedTitleCells(ss)), ",");
    var rows := |ss[0].samples|;
    var rs := LegacyMergedRows(ss, fmt, render);
    var ls := LegacyMergedLines(ss, fmt, render)[1..];
    var blocks := seq(rows, j requires 0 <= j < rows => [ls[j]]);
    forall j | 0 <= j < rows
      ensures rs[j] == Lines(blocks[j])
    {
      LegacyMergedRowText(ss, j, fmt, render);
    }
    SequenceLines(rs, blocks);
    FlattenSingletons(ls);
    LinesThen([header], ls);
  }

  /** OutputMerged's header and rows both have 1 + 2 * N fields. */
  lemma LegacyMergedAligned(ss: seq<Series>, j: nat, fmt: Option<string>, render: Render)
    requires 0 < |ss| && j < |ss[0].samples|
    ensures |Flatten(LegacyMergedTitleCells(ss))| == 1 + 2 * |ss|
    ensures |LegacyMergedRowFields(ss, j, fmt, render)| == 1 + 2 * |ss|
  {
    FlattenRagged(LegacyMergedTitleCells(ss), 2);
    FlattenLength(LegacyMergedRowCells(ss, j, render), 2);
  }

  /** A first cell one field wider than the rest. */
  lemma {:induction false} FlattenRagged(cs: seq<seq<string>>, w: nat)
    requires cs != [] && |cs[0]| == w + 1 && forall k :: 1 <= k < |cs| ==> |cs[k]| == w
    ensures |Flatten(cs)| == w * |cs| + 1
  {
    var n := |cs| - 1;
    if n > 0 {
      FlattenRagged(cs[..n], w);
      MulStep(w, n);
    }
  }

  /** Main's merged path: with at least one tag, OutputMerged after Merge never
      raises, and writes a header line and one line per merge step. */
  lemma MergeThenOutputMerged(items: seq<Series>, fmt: Option<string>, render: Render)
    requires 0 < |items|
    ensures LegacyMerged(MergeSpec(items), fmt, render).fault == None
    ensures |LegacyMerged(MergeSpec(items), fmt, render).out.lines| == 1 + |MergeTable(SampleSeqs(items))|
  {
    MergeShape(items);
    LegacyMergedFault(MergeSpec(items), fmt, render);
    LegacyMergedOutput(MergeSpec(items), fmt, render);
  }

  // ---------------------------------------------------------------------------
  // The output-format option
  // ---------------------------------------------------------------------------

  /** eOutputFormat and its underlying values LIST = 1, TABLE = 2, MERGED = 3. */
  datatype OutputFormat = LIST | TABLE | MERGED {
    function Code(): nat
    {
      match this
      case LIST => 1
      case TABLE => 2
      case MERGED => 3
    }

    function Name(): string
    {
      match this
      case LIST => "LIST"
      case TABLE => "TABLE"
      case MERGED => "MERGED"
    }
  }

  /** An option value, or the OptionException raised for it (message and option name). */
  datatype Outcome<T> = Ok(value: T) | Rejected(message: string, option: string)

  predicate IsDigits(s: string)
  {
    forall k :: 0 <= k < |s| ==> '0' <= s[k] <= '9'
  }

  /** The value of a decimal numeral, most significant digit first. */
  function DigitsValue(s: string): nat
    requires IsDigits(s)
  {
    if s == [] then 0 else 10 * DigitsValue(s[..|s| - 1]) + (s[|s| - 1] as int - '0' as int)
  }

  /** The member of eOutputFormat with a given underlying value, if any (Enum.IsDefined). */
  function FormatOfCode(c: int): (r: Option<OutputFormat>)
    ensures r.Some? <==> 1 <= c <= 3
    ensures r.Some? ==> r.value.Code() == c
  {
    if c == 1 then Some(LIST) else if c == 2 then Some(TABLE) else if c == 3 then Some(MERGED) else None
  }

  /** Enum.TryParse followed by Enum.IsDefined: a member's exact (case-sensitive)
      name, or a decimal numeral whose value is a defined member's value. */
  function ParseFormat(s: string): Option<OutputFormat>
  {
    if s == "LIST" then Some(LIST)
    else if s == "TABLE" then Some(TABLE)
    else if s == "MERGED" then Some(MERGED)
    else if s != [] && IsDigits(s) then FormatOfCode(DigitsValue(s))
    else None
  }

  /** GetOutputFormat: LIST when the option is absent or empty, otherwise the parsed
      format, or an OptionException for "-f" naming the offending text. */
  function GetOutputFormat(str: Option<string>): (r: Outcome<OutputFormat>)
    ensures str == None || str == Some("") ==> r == Ok(LIST)
    ensures r.Ok? <==>
      str == None || str.value in {"", "LIST", "TABLE", "MERGED"} ||
      (str.value != [] && IsDigits(str.value) && 1 <= DigitsValue(str.value) <= 3)
    ensures r.Rejected? ==> r == Rejected("Wrong output format:: " + str.value, "-f")
  {
    if str == None || str.value == "" then Ok(LIST)
    else
      match ParseFormat(str.value)
      case Some(f) => Ok(f)
      case None => Rejected("Wrong output format:: " + str.value, "-f")
  }

  /** Every format is accepted under its own name and under its own value. */
  lemma FormatRoundTrip(f: OutputFormat)
    ensures GetOutputFormat(Some(f.Name())) == Ok(f)
    ensures GetOutputFormat(Some([('0' as int + f.Code()) as char])) == Ok(f)
  {
    var d := [('0' as int + f.Code()) as char];
    assert IsDigits(d) && d[..0] == [];
    assert DigitsValue(d) == f.Code();
    assert |d| == 1;
  }

  /** The numeric path ignores leading zeros: "002" selects TABLE just as "2" does. */
  lemma {:induction false} LeadingZeros(n: nat, s: string)
    requires IsDigits(s)
    ensures IsDigits(Repeat("0", n) + s)
    ensures DigitsValue(Repeat("0", n) + s) == DigitsValue(s)
  {
    var z := Repeat("0", n);
    ZerosDigits(n);
    if s == [] {
      assert z + s == z;
    } else {
      var init := s[..|s| - 1];
      assert (z + s)[..|z + s| - 1] == z + init;
      LeadingZeros(n, init);
    }
  }

  /** So a numeral padded with zeros selects the same format, or is rejected just the same. */
  lemma FormatLeadingZeros(n: nat, s: string)
    requires s != [] && IsDigits(s)
    ensures ParseFormat(Repeat("0", n) + s) == ParseFormat(s)
  {
    LeadingZeros(n, s);
    var z := Repeat("0", n) + s;
    // a name ends in a letter, a numeral in a digit
    assert '0' <= z[|z| - 1] <= '9' && '0' <= s[|s| - 1] <= '9';
  }

  lemma {:induction false} ZerosDigits(n: nat)
    ensures IsDigits(Repeat("0", n))
    ensures DigitsValue(Repeat("0", n)) == 0
  {
    if n > 0 {
      var w := Repeat("0", n - 1);
      ZerosDigits(n - 1);
      assert Repeat("0", n) == w + ['0'];
      DigitsSnoc(w, '0');
    }
  }

  /** A digit appended to a numeral: ten times its value plus the digit's. */
  lemma DigitsSnoc(w: string, c: char)
    requires IsDigits(w) && '0' <= c <= '9'
    ensures IsDigits(w + [c])
    ensures DigitsValue(w + [c]) == 10 * DigitsValue(w) + (c as int - '0' as int)
  {
    var z := w + [c];
    forall k | 0 <= k < |z|
      ensures '0' <= z[k] <= '9'
    {
      if k < |w| {
        assert z[k] == w[k];
      }
    }
    assert z[..|z| - 1] == w;
  }

  /** Names are matched case-sensitively, and 0 and 4 name no format. */
  lemma FormatRejections()
    ensures GetOutputFormat(Some("list")) == Rejected("Wrong output format:: list", "-f")
    ensures GetOutputFormat(Some("0")).Rejected? && GetOutputFormat(Some("4")).Rejected?
  {
    assert IsDigits("0") && "0"[..0] == [];
    assert IsDigits("4") && "4"[..0] == [];
  }
}
