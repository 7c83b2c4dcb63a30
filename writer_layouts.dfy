/**
 * What the output writers' lines are, field by field: each line is its fields
 * joined by the list separator, the header gives every tag as many columns as
 * the data lines do, and the writers raise exactly in the cases stated here.
 */
module WriterLayouts {
  import opened Samples
  import opened TextOut
  import Program
  import opened OutputWriter

  // ---------------------------------------------------------------------------
  // Fields shared by the layouts
  // ---------------------------------------------------------------------------

  /** The header's timestamp titles. */
  function TimestampTitleFields(st: Settings): (f: seq<string>)
    ensures |f| == TimestampWidth(st)
  {
    if st.SplitDateTime() then ["Date", "Time"] else ["Timestamp"]
  }

  /** A data line's timestamp columns. */
  function TimestampFields(st: Settings, render: Render, t: Timestamp): (f: seq<string>)
    ensures |f| == TimestampWidth(st)
  {
    if st.SplitDateTime() then [render.invariantCulture(t, "MM/dd/yyyy"), render.invariantCulture(t, "HH:mm:ss")]
    else [GetDatetimeStr(render, t, st.timestampFormat)]
  }

  /** The selected quality columns of a sample, DA before historian. */
  function QualityFields(st: Settings, x: Sample, render: Render): (f: seq<string>)
    ensures |f| == QualityCount(st.quality)
  {
    (if st.quality.WithDa() then [render.daText(x.quality)] else [])
      + (if st.quality.WithHist() then [render.histText(x.histQuality)] else [])
  }

  lemma TimestampTitleJoin(st: Settings)
    ensures MergedTimestampTitle(st) == Join(TimestampTitleFields(st), st.separator)
  {
    JoinSmall("Date", "Time", "", "", st.separator);
  }

  lemma TimestampJoin(st: Settings, render: Render, t: Timestamp)
    ensures TimestampText(st, render, t) == Join(TimestampFields(st, render, t), st.separator)
  {
    JoinSmall(render.invariantCulture(t, "MM/dd/yyyy"), render.invariantCulture(t, "HH:mm:ss"), "", "", st.separator);
  }

  /** A literal and a hole, filled. */
  lemma FormatPair(a: string, k: nat, args: seq<string>)
    requires k < |args|
    ensures Fits([Lit(a), Arg(k)], |args|) && Format([Lit(a), Arg(k)], args) == a + args[k]
  {
    assert [Lit(a), Arg(k)][1..] == [Arg(k)];
    FormatOne(Arg(k), args);
  }

  /** A literal, a hole and a literal, filled. */
  lemma FormatTriple(a: string, k: nat, b: string, args: seq<string>)
    requires k < |args|
    ensures Fits([Lit(a), Arg(k), Lit(b)], |args|) && Format([Lit(a), Arg(k), Lit(b)], args) == a + (args[k] + b)
  {
    var t := [Lit(a), Arg(k), Lit(b)];
    assert t[1..] == [Arg(k), Lit(b)] && t[1..][1..] == [Lit(b)];
    FormatOne(Lit(b), args);
    assert Format([Arg(k), Lit(b)], args) == args[k] + b;
  }

  /** Joining after a separator: one more field. */
  lemma JoinTail(fields: seq<string>, x: string, sep: string)
    requires fields != []
    ensures Join(fields + [x], sep) == Join(fields, sep) + (sep + x)
  {
    JoinSnoc(fields, x, sep);
  }

  /** An optional column's text: after a separator when selected, nothing otherwise. */
  function Opt(selected: bool, sep: string, x: string): string
  {
    if selected then sep + x else ""
  }

  /** Joining optional trailing fields adds each one after a separator. */
  lemma JoinOptional(f0: seq<string>, a: string, b: string, withA: bool, withB: bool, sep: string)
    requires f0 != []
    ensures Join(f0 + (if withA then [a] else []) + (if withB then [b] else []), sep)
         == Join(f0, sep) + Opt(withA, sep, a) + Opt(withB, sep, b)
  {
    var f1 := f0 + (if withA then [a] else []);
    if withA {
      JoinTail(f0, a, sep);
    } else {
      assert f1 == f0;
    }
    if withB {
      JoinTail(f1, b, sep);
    } else {
      assert f1 + [] == f1;
    }
  }

  /** The value template, filled: the value and each selected quality, each after a separator. */
  lemma ValueTemplateJoin(st: Settings, x: Sample, render: Render)
    ensures Format(ValueTemplate(st), ValueArgs(x, render))
         == st.separator + Join([Program.ValueText(x, render, "")] + QualityFields(st, x, render), st.separator)
  {
    var sep := st.separator;
    var args := ValueArgs(x, render);
    var v := Program.ValueText(x, render, "");
    var d := render.daText(x.quality);
    var h := render.histText(x.histQuality);
    FormatPair(sep, 0, args);
    FormatPair(sep, 1, args);
    FormatPair(sep, 2, args);
    var t0 := [Lit(sep), Arg(0)];
    var t1 := if st.quality.WithDa() then [Lit(sep), Arg(1)] else [];
    var t2 := if st.quality.WithHist() then [Lit(sep), Arg(2)] else [];
    assert Format([], args) == "";
    FormatAppend(t0, t1, args);
    FormatAppend(t0 + t1, t2, args);
    var f1 := [v] + (if st.quality.WithDa() then [d] else []);
    if st.quality.WithDa() {
      JoinTail([v], d, sep);
    } else {
      assert f1 == [v];
    }
    if st.quality.WithHist() {
      JoinTail(f1, h, sep);
    } else {
      assert f1 + [] == f1;
    }
    assert [v] + QualityFields(st, x, render) == f1 + (if st.quality.WithHist() then [h] else []);
  }

  /** Every series has an entry at index j. */
  predicate RowPresent(data: seq<Series>, j: nat)
  {
    forall i :: 0 <= i < |data| ==> j < |data[i].samples|
  }

  // ---------------------------------------------------------------------------
  // Merged layout
  // ---------------------------------------------------------------------------

  /** A tag's header columns in the merged layout. */
  function MergedTitleFields(st: Settings, name: string): (f: seq<string>)
    ensures |f| == 1 + QualityCount(st.quality)
  {
    [name]
      + (if st.quality.WithDa() then [name + " da quality"] else [])
      + (if st.quality.WithHist() then [name + " hist quality"] else [])
  }

  function MergedTitleCells(st: Settings, ss: seq<Series>): (cs: seq<seq<string>>)
    ensures |cs| == |ss|
    ensures forall i :: 0 <= i < |ss| ==> cs[i] == MergedTitleFields(st, ss[i].name)
  {
    seq(|ss|, i requires 0 <= i < |ss| => MergedTitleFields(st, ss[i].name))
  }

  /** The merged header's columns. */
  function MergedHeaderFields(st: Settings, ss: seq<Series>): seq<string>
  {
    TimestampTitleFields(st) + Flatten(MergedTitleCells(st, ss))
  }

  /** A tag's columns in a merged data line: the value (a blank when null) and the qualities. */
  function MergedCellFields(st: Settings, x: Sample, render: Render): (f: seq<string>)
    ensures |f| == 1 + QualityCount(st.quality)
  {
    [Program.ValueText(x, render, " ")] + QualityFields(st, x, render)
  }

  function MergedRowCells(st: Settings, data: seq<Series>, j: nat, render: Render): (cs: seq<seq<string>>)
    requires RowPresent(data, j)
    ensures |cs| == |data|
    ensures forall i :: 0 <= i < |data| ==> cs[i] == MergedCellFields(st, data[i].samples[j], render)
  {
    seq(|data|, i requires 0 <= i < |data| => MergedCellFields(st, data[i].samples[j], render))
  }

  /** The columns of merged data line j: series 0's timestamp, then every tag's columns. */
  function MergedRowFields(st: Settings, data: seq<Series>, j: nat, render: Render): seq<string>
    requires 0 < |data| && j < |data[0].samples| && RowPresent(data, j)
  {
    TimestampFields(st, render, data[0].samples[j].timestamp) + Flatten(MergedRowCells(st, data, j, render))
  }

  /** The merged Write gets through: there is a series and none is shorter than series 0. */
  predicate MergedWritable(data: seq<Series>)
  {
    0 < |data| && forall i :: 0 <= i < |data| ==> |data[0].samples| <= |data[i].samples|
  }

  /** The merged data lines: one per entry of series 0. */
  function MergedLines(st: Settings, data: seq<Series>, render: Render): (ls: seq<string>)
    requires MergedWritable(data)
    ensures |ls| == |data[0].samples|
    ensures forall j :: 0 <= j < |data[0].samples| ==> ls[j] == Join(MergedRowFields(st, data, j, render), st.separator)
  {
    seq(|data[0].samples|, j requires 0 <= j < |data[0].samples| => Join(MergedRowFields(st, data, j, render), st.separator))
  }

  /** The quality parts of the merged template, filled. */
  lemma MergedTemplateFill(st: Settings, name: string)
    ensures Format(MergedHeaderTemplate(st), [name])
         == (st.separator + name) + Opt(st.quality.WithDa(), st.separator, name + " da quality")
            + Opt(st.quality.WithHist(), st.separator, name + " hist quality")
  {
    var sep := st.separator;
    var args := [name];
    var t1 := if st.quality.WithDa() then [Lit(sep), Arg(0), Lit(" da quality")] else [];
    var t2 := if st.quality.WithHist() then [Lit(sep), Arg(0), Lit(" hist quality")] else [];
    FormatPair(sep, 0, args);
    FormatTriple(sep, 0, " da quality", args);
    FormatTriple(sep, 0, " hist quality", args);
    assert Format([], args) == "";
    FormatAppend3([Lit(sep), Arg(0)], t1, t2, args);
  }

  lemma MergedHeadingJoin(st: Settings, name: string)
    ensures Format(MergedHeaderTemplate(st), [name]) == st.separator + Join(MergedTitleFields(st, name), st.separator)
  {
    var sep := st.separator;
    var s1 := Opt(st.quality.WithDa(), sep, name + " da quality");
    var s2 := Opt(st.quality.WithHist(), sep, name + " hist quality");
    MergedTemplateFill(st, name);
    JoinOptional([name], name + " da quality", name + " hist quality", st.quality.WithDa(), st.quality.WithHist(), sep);
    assert Join([name], sep) == name;
    assert (sep + name) + s1 + s2 == sep + (name + s1 + s2);
  }

  /** The merged header is one line: its columns joined by the separator. */
  lemma MergedHeaderLine(st: Settings, ss: seq<Series>)
    ensures MergedHeader(st, ss) == Lines([Join(MergedHeaderFields(st, ss), st.separator)])
  {
    var sep := st.separator;
    var hs := MergedHeadings(st, ss);
    var cs := MergedTitleCells(st, ss);
    var ps := CellTexts(cs, sep, false);
    forall i | 0 <= i < |ss|
      ensures hs[i] == Text(ps[i])
    {
      MergedHeadingJoin(st, ss[i].name);
    }
    SequenceTexts(hs, ps);
    JoinAfter(TimestampTitleFields(st), cs, sep);
    TimestampTitleJoin(st);
    TextEndLine(Join(MergedHeaderFields(st, ss), sep));
  }

  lemma MergedEntryJoin(st: Settings, x: Sample, render: Render)
    ensures MergedEntry(st, x, render) == st.separator + Join(MergedCellFields(st, x, render), st.separator)
  {
    var sep := st.separator;
    var v := Program.ValueText(x, render, " ");
    var d := render.daText(x.quality);
    var h := render.histText(x.histQuality);
    var f1 := [v] + (if st.quality.WithDa() then [d] else []);
    if st.quality.WithDa() {
      JoinTail([v], d, sep);
    } else {
      assert f1 == [v];
    }
    if st.quality.WithHist() {
      JoinTail(f1, h, sep);
    } else {
      assert f1 + [] == f1;
    }
    assert MergedCellFields(st, x, render) == f1 + (if st.quality.WithHist() then [h] else []);
  }

  lemma MergedRowFault(st: Settings, data: seq<Series>, j: nat, render: Render)
    requires 0 < |data| && j < |data[0].samples|
    ensures MergedRow(st, data, j, render).fault == None <==> RowPresent(data, j)
    ensures MergedRow(st, data, j, render).fault in {None, Some(ArgumentOutOfRange)}
  {
    var es := MergedCells(st, data, j, render);
    SequenceFault(es);
    assert forall i :: 0 <= i < |data| ==> (es[i].fault == None <==> j < |data[i].samples|);
    AndThenStream(Fresh, Text(TimestampText(st, render, data[0].samples[j].timestamp)), Sequence(es));
  }

  /** A merged data line whose series all reach index j is its columns joined. */
  lemma MergedRowLine(st: Settings, data: seq<Series>, j: nat, render: Render)
    requires 0 < |data| && j < |data[0].samples| && RowPresent(data, j)
    ensures MergedRow(st, data, j, render) == Lines([Join(MergedRowFields(st, data, j, render), st.separator)])
  {
    var sep := st.separator;
    var t := data[0].samples[j].timestamp;
    var es := MergedCells(st, data, j, render);
    var cs := MergedRowCells(st, data, j, render);
    var ps := CellTexts(cs, sep, false);
    forall i | 0 <= i < |data|
      ensures es[i] == Text(ps[i])
    {
      MergedEntryJoin(st, data[i].samples[j], render);
    }
    SequenceTexts(es, ps);
    JoinAfter(TimestampFields(st, render, t), cs, sep);
    TimestampJoin(st, render, t);
    TextEndLine(Join(MergedRowFields(st, data, j, render), sep));
  }

  /** The merged rows raise exactly when a series is shorter than series 0, with an argument exception. */
  lemma MergedRowsFault(st: Settings, data: seq<Series>, render: Render)
    requires 0 < |data|
    ensures Sequence(MergedRows(st, data, render)).fault == None <==> MergedWritable(data)
    ensures Sequence(MergedRows(st, data, render)).fault in {None, Some(ArgumentOutOfRange)}
  {
    var rs := MergedRows(st, data, render);
    SequenceFault(rs);
    if MergedWritable(data) {
      forall j | 0 <= j < |data[0].samples|
        ensures rs[j].fault == None
      {
        MergedRowFault(st, data, j, render);
      }
    } else {
      var i :| 0 <= i < |data| && |data[i].samples| < |data[0].samples|;
      var j := |data[i].samples|;
      MergedRowFault(st, data, j, render);
      assert rs[j].fault != None;
      var k :| 0 <= k < |rs| && Sequence(rs).fault == rs[k].fault;
      MergedRowFault(st, data, k, render);
    }
  }

  /** When the merged Write raises: a null value the merge copies, before anything
      is written; then, without a series, an index exception before anything is
      written; otherwise an argument exception exactly when a series is shorter
      than series 0. */
  lemma MergedBodyFault(st: Settings, ss: seq<Series>, render: Render)
    ensures MergeThrows(st, ss) ==> MergedBody(st, ss, render) == Emission(Fresh, Some(NullReference))
    ensures !MergeThrows(st, ss) && |MergedData(st, ss)| == 0
        ==> MergedBody(st, ss, render) == Emission(Fresh, Some(IndexOutOfRange))
    ensures MergedBody(st, ss, render).fault == None
        <==> !MergeThrows(st, ss) && MergedWritable(MergedData(st, ss))
    ensures !MergeThrows(st, ss) && 0 < |MergedData(st, ss)| && !MergedWritable(MergedData(st, ss))
        ==> MergedBody(st, ss, render).fault == Some(ArgumentOutOfRange)
  {
    if !MergeThrows(st, ss) && 0 < |MergedData(st, ss)| {
      MergedRowsFault(st, MergedData(st, ss), render);
    }
  }

  /** What the merged Write writes when it gets through: one line per entry of series 0. */
  lemma MergedBodyLines(st: Settings, ss: seq<Series>, render: Render)
    requires !MergeThrows(st, ss) && MergedWritable(MergedData(st, ss))
    ensures MergedBody(st, ss, render) == Lines(MergedLines(st, MergedData(st, ss), render))
  {
    var data := MergedData(st, ss);
    var rows := |data[0].samples|;
    var rs := MergedRows(st, data, render);
    assert MergedBody(st, ss, render) == Sequence(rs);
    var ls := MergedLines(st, data, render);
    var blocks := seq(rows, j requires 0 <= j < rows => [ls[j]]);
    forall j | 0 <= j < rows
      ensures rs[j] == Lines(blocks[j])
    {
      MergedRowLine(st, data, j, render);
    }
    SequenceLines(rs, blocks);
    FlattenSingletons(ls);
  }

  /** The merged header's columns: the timestamp's, then 1 + QualityCount per
      tag, tag i's r-th title at TimestampWidth + (1 + QualityCount) * i + r. */
  lemma MergedHeaderAligned(st: Settings, ss: seq<Series>, i: nat, r: nat)
    requires i < |ss| && r < 1 + QualityCount(st.quality)
    ensures |MergedHeaderFields(st, ss)| == TimestampWidth(st) + (1 + QualityCount(st.quality)) * |ss|
    ensures TimestampWidth(st) + (1 + QualityCount(st.quality)) * i + r < |MergedHeaderFields(st, ss)|
    ensures MergedHeaderFields(st, ss)[TimestampWidth(st) + (1 + QualityCount(st.quality)) * i + r]
        == MergedTitleFields(st, ss[i].name)[r]
  {
    var w := 1 + QualityCount(st.quality);
    FlattenLength(MergedTitleCells(st, ss), w);
    LeadAt(TimestampTitleFields(st), MergedTitleCells(st, ss), w, i, r);
  }

  /** A merged data line's columns, at the same positions as the header's. */
  lemma MergedRowAligned(st: Settings, data: seq<Series>, j: nat, render: Render, i: nat, r: nat)
    requires 0 < |data| && j < |data[0].samples| && RowPresent(data, j)
    requires i < |data| && r < 1 + QualityCount(st.quality)
    ensures |MergedRowFields(st, data, j, render)| == TimestampWidth(st) + (1 + QualityCount(st.quality)) * |data|
    ensures TimestampWidth(st) + (1 + QualityCount(st.quality)) * i + r < |MergedRowFields(st, data, j, render)|
    ensures MergedRowFields(st, data, j, render)[TimestampWidth(st) + (1 + QualityCount(st.quality)) * i + r]
        == MergedCellFields(st, data[i].samples[j], render)[r]
  {
    var w := 1 + QualityCount(st.quality);
    var lead := TimestampFields(st, render, data[0].samples[j].timestamp);
    FlattenLength(MergedRowCells(st, data, j, render), w);
    LeadAt(lead, MergedRowCells(st, data, j, render), w, i, r);
  }

  /** The merged layout prints as many tags as it was given, merged or not. */
  lemma MergedDataTags(st: Settings, ss: seq<Series>)
    ensures |MergedData(st, ss)| == |ss|
    ensures forall i :: 0 <= i < |ss| ==> MergedData(st, ss)[i].name == ss[i].name
  {
    Program.MergeShape(ss);
  }

  /** With raw values read, at least one tag and a merge that does not throw,
      the merged Write never raises and writes one line per merge step. */
  lemma MergedAfterMerge(st: Settings, items: seq<Series>, render: Render)
    requires st.readRaw && 0 < |items| && !Program.MergeRaises(SampleSeqs(items))
    ensures MergedBody(st, items, render).fault == None
    ensures |MergedBody(st, items, render).out.lines| == |Program.MergeTable(SampleSeqs(items))|
  {
    Program.MergeShape(items);
    MergedBodyFault(st, items, render);
    MergedBodyLines(st, items, render);
  }

  // ---------------------------------------------------------------------------
  // Table layout
  // ---------------------------------------------------------------------------

  /** The columns every tag takes in the table layout: its timestamp, its value and its qualities. */
  function TableWidth(st: Settings): nat
  {
    TimestampWidth(st) + 1 + QualityCount(st.quality)
  }

  /** A tag's header columns in the table layout. */
  function TableTitleFields(st: Settings, name: string): (f: seq<string>)
    ensures |f| == TableWidth(st)
  {
    TimestampTitleFields(st) + [name]
      + (if st.quality.WithDa() then [" " + name + " da quality"] else [])
      + (if st.quality.WithHist() then [" " + name + " hist quality"] else [])
  }

  function TableTitleCells(st: Settings, ss: seq<Series>): (cs: seq<seq<string>>)
    ensures |cs| == |ss|
    ensures forall i :: 0 <= i < |ss| ==> cs[i] == TableTitleFields(st, ss[i].name)
  {
    seq(|ss|, i requires 0 <= i < |ss| => TableTitleFields(st, ss[i].name))
  }

  /** Row j can be read: every tag with an entry at j finds one in series 0 too. */
  predicate TableRowReadable(ss: seq<Series>, j: nat)
  {
    0 < |ss| && forall i :: 0 <= i < |ss| && j < |ss[i].samples| ==> j < |ss[0].samples|
  }

  /** Tag i's columns in table row j: series 0's timestamp, the tag's value
      (empty when null) and qualities; all empty once the tag's series is exhausted. */
  function TableCellFields(st: Settings, ss: seq<Series>, i: nat, j: nat, render: Render): (f: seq<string>)
    requires i < |ss| && TableRowReadable(ss, j)
    ensures |f| == TableWidth(st)
  {
    if j < |ss[i].samples| then
      var x := ss[i].samples[j];
      TimestampFields(st, render, ss[0].samples[j].timestamp)
        + ([Program.ValueText(x, render, "")] + QualityFields(st, x, render))
    else Blanks(TableWidth(st))
  }

  function TableRowCells(st: Settings, ss: seq<Series>, j: nat, render: Render): (cs: seq<seq<string>>)
    requires TableRowReadable(ss, j)
    ensures |cs| == |ss|
    ensures forall i :: 0 <= i < |ss| ==> cs[i] == TableCellFields(st, ss, i, j, render)
  {
    seq(|ss|, i requires 0 <= i < |ss| => TableCellFields(st, ss, i, j, render))
  }

  /** The table Write gets through: there is a series and none is longer than series 0. */
  predicate TableWritable(ss: seq<Series>)
  {
    0 < |ss| && forall i :: 0 <= i < |ss| ==> |ss[i].samples| <= |ss[0].samples|
  }

  /** The table data lines: one per entry of series 0, the longest. */
  function TableLines(st: Settings, ss: seq<Series>, render: Render): (ls: seq<string>)
    requires TableWritable(ss)
    ensures |ls| == |ss[0].samples|
    ensures forall j :: 0 <= j < |ss[0].samples| ==> ls[j] == Join(Flatten(TableRowCells(st, ss, j, render)), st.separator)
  {
    seq(|ss[0].samples|, j requires 0 <= j < |ss[0].samples| => Join(Flatten(TableRowCells(st, ss, j, render)), st.separator))
  }

  /** The timestamp part of the table template, filled. */
  lemma TableTimestampTitleJoin(st: Settings, name: string)
    ensures Format(if st.SplitDateTime() then [Lit("Date" + st.separator + "Time" + st.separator), Arg(0)]
                   else [Lit("Timestamp" + st.separator), Arg(0)], [name])
         == Join(TimestampTitleFields(st) + [name], st.separator)
  {
    var sep := st.separator;
    if st.SplitDateTime() {
      FormatPair("Date" + sep + "Time" + sep, 0, [name]);
      JoinSmall("Date", "Time", name, "", sep);
    } else {
      FormatPair("Timestamp" + sep, 0, [name]);
      JoinSmall("Timestamp", name, "", "", sep);
      assert ["Timestamp"] + [name] == ["Timestamp", name];
    }
  }

  /** A quality title of the table template, filled. */
  lemma TableQualityTitle(sep: string, name: string, suffix: string)
    ensures Format([Lit(sep + " "), Arg(0), Lit(suffix)], [name]) == sep + (" " + name + suffix)
  {
    FormatTriple(sep + " ", 0, suffix, [name]);
  }

  /** The table template, filled: the timestamp titles and the name, then the qualities. */
  lemma TableTemplateFill(st: Settings, name: string)
    ensures Format(TableHeaderTemplate(st), [name])
         == Join(TimestampTitleFields(st) + [name], st.separator)
            + Opt(st.quality.WithDa(), st.separator, " " + name + " da quality")
            + Opt(st.quality.WithHist(), st.separator, " " + name + " hist quality")
  {
    var sep := st.separator;
    var args := [name];
    var t0 := if st.SplitDateTime() then [Lit("Date" + sep + "Time" + sep), Arg(0)] else [Lit("Timestamp" + sep), Arg(0)];
    var t1 := if st.quality.WithDa() then [Lit(sep + " "), Arg(0), Lit(" da quality")] else [];
    var t2 := if st.quality.WithHist() then [Lit(sep + " "), Arg(0), Lit(" hist quality")] else [];
    TableTimestampTitleJoin(st, name);
    TableQualityTitle(sep, name, " da quality");
    TableQualityTitle(sep, name, " hist quality");
    assert Format([], args) == "";
    FormatAppend3(t0, t1, t2, args);
  }

  lemma TableHeadingJoin(st: Settings, name: string)
    ensures Format(TableHeaderTemplate(st), [name]) == Join(TableTitleFields(st, name), st.separator)
  {
    TableTemplateFill(st, name);
    JoinOptional(TimestampTitleFields(st) + [name], " " + name + " da quality", " " + name + " hist quality",
      st.quality.WithDa(), st.quality.WithHist(), st.separator);
  }

  /** The table header is one line: every tag's columns, joined by the separator. */
  lemma TableHeaderLine(st: Settings, ss: seq<Series>)
    requires 0 < |ss|
    ensures TableHeader(st, ss) == Lines([Join(Flatten(TableTitleCells(st, ss)), st.separator)])
  {
    var sep := st.separator;
    var hs := TableHeadings(st, ss);
    var cs := TableTitleCells(st, ss);
    var ps := CellTexts(cs, sep, true);
    forall i | 0 <= i < |ss|
      ensures hs[i] == Text(ps[i])
    {
      TableHeadingJoin(st, ss[i].name);
    }
    SequenceTexts(hs, ps);
    JoinLeading(cs, sep);
    TextEndLine(Join(Flatten(cs), sep));
  }

  lemma RepeatOnce(s: string)
    ensures Repeat(s, 1) == s
  {
    assert "" + s == s;
  }

  /** The padding of an exhausted tag is its columns left empty: as many
      separators as a filled cell has between its columns. */
  lemma TableEmptyJoin(st: Settings)
    ensures TableEmpty(st) == Join(Blanks(TableWidth(st)), st.separator)
  {
    var sep := st.separator;
    var n1 := if st.SplitDateTime() then 2 else 1;
    var n2 := n1 + (if st.quality.WithDa() then 1 else 0);
    RepeatOnce(sep);
    var e1 := sep + (if st.SplitDateTime() then sep else "");
    assert e1 == Repeat(sep, n1);
    var e2 := e1 + (if st.quality.WithDa() then sep else "");
    assert e2 == Repeat(sep, n2);
    var e3 := e2 + (if st.quality.WithHist() then sep else "");
    assert e3 == Repeat(sep, TableWidth(st) - 1);
    JoinBlanks(TableWidth(st), sep);
  }

  /** A table cell that does not raise is its separator and its columns joined. */
  lemma TableCellJoin(st: Settings, ss: seq<Series>, i: nat, j: nat, render: Render)
    requires i < |ss| && TableRowReadable(ss, j)
    ensures TableCell(st, ss, i, j, render) == Text(Lead(st, i) + Join(TableCellFields(st, ss, i, j, render), st.separator))
  {
    var sep := st.separator;
    if j < |ss[i].samples| {
      var x := ss[i].samples[j];
      var t := ss[0].samples[j].timestamp;
      var vf := [Program.ValueText(x, render, "")] + QualityFields(st, x, render);
      TimestampJoin(st, render, t);
      ValueTemplateJoin(st, x, render);
      JoinConcat(TimestampFields(st, render, t), vf, sep);
      assert TimestampText(st, render, t) + Format(ValueTemplate(st), ValueArgs(x, render))
          == Join(TimestampFields(st, render, t), sep) + sep + Join(vf, sep);
    } else {
      TableEmptyJoin(st);
    }
  }

  lemma TableRowFault(st: Settings, ss: seq<Series>, j: nat, render: Render)
    requires 0 < |ss|
    ensures TableRow(st, ss, j, render).fault == None <==> TableRowReadable(ss, j)
    ensures TableRow(st, ss, j, render).fault in {None, Some(ArgumentOutOfRange)}
  {
    var es := TableCells(st, ss, j, render);
    SequenceFault(es);
    assert forall i :: 0 <= i < |ss| ==> (es[i].fault == None <==> (j < |ss[i].samples| ==> j < |ss[0].samples|));
  }

  /** A table row that does not raise is one line: every tag's columns, joined. */
  lemma TableRowLine(st: Settings, ss: seq<Series>, j: nat, render: Render)
    requires TableRowReadable(ss, j)
    ensures TableRow(st, ss, j, render) == Lines([Join(Flatten(TableRowCells(st, ss, j, render)), st.separator)])
  {
    var sep := st.separator;
    var es := TableCells(st, ss, j, render);
    var cs := TableRowCells(st, ss, j, render);
    var ps := CellTexts(cs, sep, true);
    forall i | 0 <= i < |ss|
      ensures es[i] == Text(ps[i])
    {
      TableCellJoin(st, ss, i, j, render);
    }
    SequenceTexts(es, ps);
    JoinLeading(cs, sep);
    TextEndLine(Join(Flatten(cs), sep));
  }

  /** The table rows raise exactly when a series is longer than series 0, with an argument exception. */
  lemma TableRowsFault(st: Settings, ss: seq<Series>, render: Render)
    requires 0 < |ss|
    ensures Sequence(TableRows(st, ss, render)).fault == None <==> TableWritable(ss)
    ensures Sequence(TableRows(st, ss, render)).fault in {None, Some(ArgumentOutOfRange)}
  {
    var rs := TableRows(st, ss, render);
    SequenceFault(rs);
    if TableWritable(ss) {
      forall j | 0 <= j < MaxCount(ss)
        ensures rs[j].fault == None
      {
        TableRowFault(st, ss, j, render);
      }
    } else {
      var i :| 0 <= i < |ss| && |ss[0].samples| < |ss[i].samples|;
      var j := |ss[0].samples|;
      TableRowFault(st, ss, j, render);
      assert rs[j].fault != None;
      var k :| 0 <= k < |rs| && Sequence(rs).fault == rs[k].fault;
      TableRowFault(st, ss, k, render);
    }
  }

  /** When the table Write raises: without a series, Max throws before anything
      is written; otherwise an argument exception exactly when a series is longer
      than series 0. */
  lemma TableBodyFault(st: Settings, ss: seq<Series>, render: Render)
    ensures |ss| == 0 ==> TableBody(st, ss, render) == Emission(Fresh, Some(EmptySequence))
    ensures TableBody(st, ss, render).fault == None <==> TableWritable(ss)
    ensures 0 < |ss| && !TableWritable(ss) ==> TableBody(st, ss, render).fault == Some(ArgumentOutOfRange)
  {
    if 0 < |ss| {
      TableRowsFault(st, ss, render);
    }
  }

  /** What the table Write writes when it gets through: max(count) = count of
      series 0 lines, every tag's columns in each. */
  lemma TableBodyLines(st: Settings, ss: seq<Series>, render: Render)
    requires TableWritable(ss)
    ensures MaxCount(ss) == |ss[0].samples|
    ensures TableBody(st, ss, render) == Lines(TableLines(st, ss, render))
  {
    var rows := |ss[0].samples|;
    var rs := TableRows(st, ss, render);
    var ls := TableLines(st, ss, render);
    var blocks := seq(rows, j requires 0 <= j < rows => [ls[j]]);
    forall j | 0 <= j < rows
      ensures rs[j] == Lines(blocks[j])
    {
      TableRowLine(st, ss, j, render);
    }
    SequenceLines(rs, blocks);
    FlattenSingletons(ls);
  }

  /** The table header gives each tag TableWidth columns, tag i's name at
      TableWidth * i + TimestampWidth. */
  lemma TableHeaderAligned(st: Settings, ss: seq<Series>)
    ensures |Flatten(TableTitleCells(st, ss))| == TableWidth(st) * |ss|
    ensures forall i :: 0 <= i < |ss| ==>
      TableWidth(st) * i + TimestampWidth(st) < |Flatten(TableTitleCells(st, ss))|
      && Flatten(TableTitleCells(st, ss))[TableWidth(st) * i + TimestampWidth(st)] == ss[i].name
  {
    var cs := TableTitleCells(st, ss);
    var names := Names(ss);
    forall i | 0 <= i < |ss|
      ensures cs[i][TimestampWidth(st)] == names[i]
    {
      assert cs[i][TimestampWidth(st)] == ss[i].name;
    }
    ColumnAt(cs, TableWidth(st), TimestampWidth(st), names);
  }

  /** What tag i shows in its value column of table row j: the value (empty when
      null), or nothing once the tag's series is exhausted. */
  function TableValueAt(ss: seq<Series>, i: nat, j: nat, render: Render): string
    requires i < |ss|
  {
    if j < |ss[i].samples| then Program.ValueText(ss[i].samples[j], render, "") else ""
  }

  /** So does every table data line, filled or padded: tag i's value sits under its name. */
  lemma TableRowAligned(st: Settings, ss: seq<Series>, j: nat, render: Render)
    requires TableRowReadable(ss, j)
    ensures |Flatten(TableRowCells(st, ss, j, render))| == TableWidth(st) * |ss|
    ensures forall i :: 0 <= i < |ss| ==>
      TableWidth(st) * i + TimestampWidth(st) < |Flatten(TableRowCells(st, ss, j, render))|
      && Flatten(TableRowCells(st, ss, j, render))[TableWidth(st) * i + TimestampWidth(st)]
         == TableValueAt(ss, i, j, render)
  {
    var cs := TableRowCells(st, ss, j, render);
    var vals := seq(|ss|, i requires 0 <= i < |ss| => TableValueAt(ss, i, j, render));
    forall i | 0 <= i < |ss|
      ensures cs[i][TimestampWidth(st)] == vals[i]
    {
      TableCellValue(st, ss, i, j, render);
    }
    ColumnAt(cs, TableWidth(st), TimestampWidth(st), vals);
  }

  lemma TableCellValue(st: Settings, ss: seq<Series>, i: nat, j: nat, render: Render)
    requires i < |ss| && TableRowReadable(ss, j)
    ensures TableCellFields(st, ss, i, j, render)[TimestampWidth(st)] == TableValueAt(ss, i, j, render)
  {
  }

  // ---------------------------------------------------------------------------
  // Record layout
  // ---------------------------------------------------------------------------

  /** The record header's columns: timestamp titles, Tag, Value, selected qualities. */
  function RecordTitleFields(st: Settings): (f: seq<string>)
    ensures |f| == TimestampWidth(st) + 2 + QualityCount(st.quality)
  {
    TimestampTitleFields(st) + ["Tag", "Value"]
      + (if st.quality.WithDa() then ["DA quality"] else [])
      + (if st.quality.WithHist() then ["Hist quality"] else [])
  }

  /** A record line's columns: timestamp, tag name, value (empty when null), selected qualities. */
  function RecordFields(st: Settings, name: string, x: Sample, render: Render): (f: seq<string>)
    ensures |f| == TimestampWidth(st) + 2 + QualityCount(st.quality)
  {
    TimestampFields(st, render, x.timestamp) + ([name] + ([Program.ValueText(x, render, "")] + QualityFields(st, x, render)))
  }

  lemma RecordTitleJoin(st: Settings)
    ensures RecordTitle(st) == Join(RecordTitleFields(st), st.separator)
  {
    var sep := st.separator;
    var f0 := TimestampTitleFields(st);
    TimestampTitleJoin(st);
    JoinTail(f0, "Tag", sep);
    JoinTail(f0 + ["Tag"], "Value", sep);
    assert f0 + ["Tag"] + ["Value"] == f0 + ["Tag", "Value"];
    JoinOptional(f0 + ["Tag", "Value"], "DA quality", "Hist quality", st.quality.WithDa(), st.quality.WithHist(), sep);
  }

  /** The record header is one line: its columns joined by the separator. */
  lemma RecordHeaderLine(st: Settings)
    ensures RecordHeader(st) == Lines([Join(RecordTitleFields(st), st.separator)])
  {
    RecordTitleJoin(st);
  }

  /** A record line is its columns joined by the separator. */
  lemma RecordLineJoin(st: Settings, name: string, x: Sample, render: Render)
    ensures RecordLine(st, name, x, render) == Join(RecordFields(st, name, x, render), st.separator)
  {
    var sep := st.separator;
    var tf := TimestampFields(st, render, x.timestamp);
    var vf := [Program.ValueText(x, render, "")] + QualityFields(st, x, render);
    TimestampJoin(st, render, x.timestamp);
    ValueTemplateJoin(st, x, render);
    JoinConcat([name], vf, sep);
    assert Join([name], sep) == name;
    JoinConcat(tf, [name] + vf, sep);
    var t := TimestampText(st, render, x.timestamp);
    var v := Join(vf, sep);
    assert t + sep + name + (sep + v) == t + sep + (name + sep + v);
  }

  /** Header and lines line up: the same number of columns, the tag under Tag and
      the value under Value. */
  lemma RecordAligned(st: Settings, name: string, x: Sample, render: Render)
    ensures |RecordTitleFields(st)| == |RecordFields(st, name, x, render)|
    ensures RecordTitleFields(st)[TimestampWidth(st)] == "Tag"
    ensures RecordFields(st, name, x, render)[TimestampWidth(st)] == name
    ensures RecordTitleFields(st)[TimestampWidth(st) + 1] == "Value"
    ensures RecordFields(st, name, x, render)[TimestampWidth(st) + 1] == Program.ValueText(x, render, "")
  {
    var tw := TimestampWidth(st);
    var f0 := TimestampTitleFields(st) + ["Tag", "Value"];
    assert RecordTitleFields(st)[..tw + 2] == f0;
  }

  /** The number of samples over all series. */
  function TotalSamples(ss: seq<Series>): nat
  {
    if |ss| == 0 then 0 else TotalSamples(ss[..|ss| - 1]) + |ss[|ss| - 1].samples|
  }

  lemma RecordBlocksPrefix(st: Settings, ss: seq<Series>, m: nat, render: Render)
    requires m <= |ss|
    ensures RecordBlocks(st, ss[..m], render) == RecordBlocks(st, ss, render)[..m]
  {
  }

  lemma {:induction false} RecordFlattenCount(st: Settings, ss: seq<Series>, render: Render)
    ensures |Flatten(RecordBlocks(st, ss, render))| == TotalSamples(ss)
    decreases |ss|
  {
    if |ss| > 0 {
      var n := |ss| - 1;
      RecordBlocksPrefix(st, ss, n, render);
      RecordFlattenCount(st, ss[..n], render);
    }
  }

  /** The record body never raises and has one line per sample. */
  lemma RecordCount(st: Settings, ss: seq<Series>, render: Render)
    ensures RecordBody(st, ss, render).fault == None
    ensures |RecordBody(st, ss, render).out.lines| == TotalSamples(ss)
  {
    RecordFlattenCount(st, ss, render);
  }

  /** The lines come tag by tag, each tag's samples in order: sample k of series i
      is line k after all samples of the series before it. */
  lemma {:induction false} RecordOrder(st: Settings, ss: seq<Series>, i: nat, k: nat, render: Render)
    requires i < |ss| && k < |ss[i].samples|
    ensures TotalSamples(ss[..i]) + k < |RecordBody(st, ss, render).out.lines|
    ensures RecordBody(st, ss, render).out.lines[TotalSamples(ss[..i]) + k]
         == RecordLine(st, ss[i].name, ss[i].samples[k], render)
    decreases |ss|
  {
    var n := |ss| - 1;
    var bs := RecordBlocks(st, ss, render);
    RecordBlocksPrefix(st, ss, n, render);
    assert Flatten(bs) == Flatten(bs[..n]) + bs[n];
    RecordFlattenCount(st, ss[..n], render);
    if i == n {
      assert ss[..n][..i] == ss[..i];
    } else {
      assert ss[..n][..i] == ss[..i];
      RecordOrder(st, ss[..n], i, k, render);
      RecordFlattenCount(st, ss, render);
    }
  }

  /** Two tags, A with one sample and B with two: three lines, A's first. */
  lemma RecordExample(st: Settings, a: string, b: string, a1: Sample, b1: Sample, b2: Sample, render: Render)
    ensures RecordBody(st, [Series(a, [a1]), Series(b, [b1, b2])], render).out.lines
         == [RecordLine(st, a, a1, render), RecordLine(st, b, b1, render), RecordLine(st, b, b2, render)]
  {
    var ss := [Series(a, [a1]), Series(b, [b1, b2])];
    var bs := RecordBlocks(st, ss, render);
    assert bs[..1][..0] == [];
    assert Flatten(bs[..1]) == bs[0];
    assert Flatten(bs) == Flatten(bs[..1]) + bs[1];
  }
}
