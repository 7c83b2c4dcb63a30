/**
 * HDARead's output writers (OutputWriter.cs): a base holding the settings and
 * the sink, and the merged, table and record layouts, each with a WriteHeader
 * and a Write. Every operation is proved against an Emission function that says
 * what it sends to the sink and which exception, if any, cuts it short; when
 * one is raised the writer closes its sink and rethrows.
 */
module OutputWriter {
  import opened Samples
  import opened TextOut
  import Program

  /** eOutputQuality: which quality columns follow each value. */
  datatype OutputQuality = NONE | DA | HISTORIAN | BOTH {
    predicate WithDa()
    {
      this == DA || this == BOTH
    }

    predicate WithHist()
    {
      this == HISTORIAN || this == BOTH
    }
  }

  /** The number of quality columns per value. */
  function QualityCount(q: OutputQuality): (c: nat)
    ensures c <= 2
    ensures c == 0 <==> q == NONE
    ensures c == 2 <==> q == BOTH
  {
    (if q.WithDa() then 1 else 0) + (if q.WithHist() then 1 else 0)
  }

  /** The configuration an OutputWriter is created with; the list separator is
      the current culture's. */
  datatype Settings = Settings(
    format: Program.OutputFormat,
    quality: OutputQuality,
    fileName: Option<string>,
    timestampFormat: Option<string>,
    readRaw: bool,
    separator: string)
  {
    /** The timestamp format "DateTime" writes a date column and a time column. */
    predicate SplitDateTime()
    {
      timestampFormat == Some("DateTime")
    }

    /** The output goes to a named file rather than to standard output. */
    predicate ToFile()
    {
      fileName.Some? && fileName.value != ""
    }
  }

  /** The columns the timestamp of a data line takes. */
  function TimestampWidth(st: Settings): nat
  {
    if st.SplitDateTime() then 2 else 1
  }

  /** A data line's timestamp: date and time in the invariant culture, separated,
      or GetDatetimeStr with the configured format. */
  function TimestampText(st: Settings, render: Render, t: Timestamp): string
  {
    if st.SplitDateTime() then
      render.invariantCulture(t, "MM/dd/yyyy") + st.separator + render.invariantCulture(t, "HH:mm:ss")
    else GetDatetimeStr(render, t, st.timestampFormat)
  }

  /** The template {sep}{0}[{sep}{1}][{sep}{2}] that the table and record layouts
      fill with the value, the DA quality and the historian quality. */
  function ValueTemplate(st: Settings): (template: seq<Piece>)
    ensures Fits(template, 3)
  {
    [Lit(st.separator), Arg(0)]
      + (if st.quality.WithDa() then [Lit(st.separator), Arg(1)] else [])
      + (if st.quality.WithHist() then [Lit(st.separator), Arg(2)] else [])
  }

  /** The arguments of the value template: the value (empty when null) and both qualities. */
  function ValueArgs(x: Sample, render: Render): (args: seq<string>)
    ensures |args| == 3
  {
    [Program.ValueText(x, render, ""), render.daText(x.quality), render.histText(x.histQuality)]
  }

  /** OutputWriter: the settings and the StreamWriter every layout writes to. */
  class OutputWriter {
    const settings: Settings
    const writer: TextSink

    /** Opening the file or standard output is not modelled: the sink starts empty. */
    constructor (settings: Settings)
      ensures this.settings == settings
      ensures fresh(writer) && writer.stream == Fresh && !writer.closed
    {
      this.settings := settings;
      writer := new TextSink();
    }

    /** Close: only a file is closed; standard output stays open. */
    method Close()
      modifies writer
      ensures writer.stream == old(writer.stream)
      ensures writer.closed == (old(writer.closed) || settings.ToFile())
    {
      if settings.fileName.Some? && settings.fileName.value != "" {
        writer.Close();
      }
    }

    /** The date and time columns in the invariant culture, or GetDatetimeStr. */
    method WriteTimestamp(t: Timestamp, render: Render)
      modifies writer
      ensures writer.stream == old(writer.stream).Write(TimestampText(settings, render, t))
      ensures writer.closed == old(writer.closed)
    {
      var st := settings;
      if st.SplitDateTime() {
        writer.Write(render.invariantCulture(t, "MM/dd/yyyy") + st.separator + render.invariantCulture(t, "HH:mm:ss"));
      } else {
        writer.Write(GetDatetimeStr(render, t, st.timestampFormat));
      }
    }
  }

  // ---------------------------------------------------------------------------
  // Merged layout: one timestamp column, then each tag's value and qualities
  // ---------------------------------------------------------------------------

  /** The merged header's timestamp columns. */
  function MergedTimestampTitle(st: Settings): string
  {
    if st.SplitDateTime() then "Date" + st.separator + "Time" else "Timestamp"
  }

  /** The merged header template {sep}{0}[{sep}{0} da quality][{sep}{0} hist quality]. */
  function MergedHeaderTemplate(st: Settings): (template: seq<Piece>)
    ensures Fits(template, 1)
  {
    [Lit(st.separator), Arg(0)]
      + (if st.quality.WithDa() then [Lit(st.separator), Arg(0), Lit(" da quality")] else [])
      + (if st.quality.WithHist() then [Lit(st.separator), Arg(0), Lit(" hist quality")] else [])
  }

  function MergedHeadings(st: Settings, ss: seq<Series>): (hs: seq<Emission>)
    ensures |hs| == |ss|
    ensures forall i :: 0 <= i < |ss| ==> hs[i] == Text(Format(MergedHeaderTemplate(st), [ss[i].name]))
  {
    seq(|ss|, i requires 0 <= i < |ss| => Text(Format(MergedHeaderTemplate(st), [ss[i].name])))
  }

  /** MergedOutputWriter.WriteHeader: the timestamp title, the template filled
      with each tag name in turn, and a line end. */
  function MergedHeader(st: Settings, ss: seq<Series>): Emission
  {
    AndThen(AndThen(Text(MergedTimestampTitle(st)), Sequence(MergedHeadings(st, ss))), EndLine)
  }

  /** The series the merged layout prints: merged first when raw values were read. */
  function MergedData(st: Settings, ss: seq<Series>): seq<Series>
  {
    if st.readRaw then Program.MergeSpec(ss) else ss
  }

  /** One tag's part of a merged row: a separator and the value (a blank for a
      null value), then a separator and each selected quality. */
  function MergedEntry(st: Settings, x: Sample, render: Render): string
  {
    st.separator + Program.ValueText(x, render, " ")
      + (if st.quality.WithDa() then st.separator + render.daText(x.quality) else "")
      + (if st.quality.WithHist() then st.separator + render.histText(x.histQuality) else "")
  }

  /** Tag i's part of row j; a series shorter than series 0 throws after the separator. */
  function MergedCell(st: Settings, data: seq<Series>, i: nat, j: nat, render: Render): Emission
    requires i < |data|
  {
    if j < |data[i].samples| then Text(MergedEntry(st, data[i].samples[j], render))
    else Abort(st.separator, ArgumentOutOfRange)
  }

  function MergedCells(st: Settings, data: seq<Series>, j: nat, render: Render): (cs: seq<Emission>)
    ensures |cs| == |data|
    ensures forall i :: 0 <= i < |data| ==> cs[i] == MergedCell(st, data, i, j, render)
  {
    seq(|data|, i requires 0 <= i < |data| => MergedCell(st, data, i, j, render))
  }

  /** Row j: series 0's timestamp, every tag's part, a line end. */
  function MergedRow(st: Settings, data: seq<Series>, j: nat, render: Render): Emission
    requires 0 < |data| && j < |data[0].samples|
  {
    AndThen(AndThen(Text(TimestampText(st, render, data[0].samples[j].timestamp)),
                    Sequence(MergedCells(st, data, j, render))), EndLine)
  }

  function MergedRows(st: Settings, data: seq<Series>, render: Render): (rs: seq<Emission>)
    requires 0 < |data|
    ensures |rs| == |data[0].samples|
    ensures forall j :: 0 <= j < |data[0].samples| ==> rs[j] == MergedRow(st, data, j, render)
  {
    seq(|data[0].samples|, j requires 0 <= j < |data[0].samples| => MergedRow(st, data, j, render))
  }

  /** Whether the merge the merged Write runs first throws. */
  predicate MergeThrows(st: Settings, ss: seq<Series>)
  {
    st.readRaw && Program.MergeRaises(SampleSeqs(ss))
  }

  /** MergedOutputWriter.Write: one row per entry of series 0 (of the merged
      series when raw values were read); a merge that throws stops it before
      anything is written, and without a series reading series 0 throws. */
  function MergedBody(st: Settings, ss: seq<Series>, render: Render): Emission
  {
    if MergeThrows(st, ss) then Abort("", NullReference)
    else
      var data := MergedData(st, ss);
      if |data| == 0 then Abort("", IndexOutOfRange) else Sequence(MergedRows(st, data, render))
  }

  class MergedOutputWriter {
    const base: OutputWriter

    constructor (settings: Settings)
      ensures base.settings == settings
      ensures fresh(base) && fresh(base.writer) && base.writer.stream == Fresh && !base.writer.closed
    {
      base := new OutputWriter(settings);
    }

    /** The header cannot raise: it reads only the names of the series it is given. */
    method WriteHeader(ss: seq<Series>)
      modifies base.writer
      ensures base.writer.stream == old(base.writer.stream).Then(MergedHeader(base.settings, ss).out)
      ensures base.writer.closed == old(base.writer.closed)
    {
      var sw := base.writer;
      var st := base.settings;
      var sep := st.separator;
      ghost var start := sw.stream;
      if st.SplitDateTime() {
        sw.Write("Date" + sep + "Time");
      } else {
        sw.Write("Timestamp");
      }
      var hdr := [Lit(sep), Arg(0)];
      if st.quality.WithDa() {
        hdr := hdr + [Lit(sep), Arg(0), Lit(" da quality")];
      }
      if st.quality.WithHist() {
        hdr := hdr + [Lit(sep), Arg(0), Lit(" hist quality")];
      }
      assert hdr == MergedHeaderTemplate(st);
      ghost var lead := sw.stream;
      ghost var hs := MergedHeadings(st, ss);
      for i := 0 to |ss|
        invariant sw.stream == lead.Then(Sequence(hs[..i]).out) && Sequence(hs[..i]).fault == None
        invariant sw.closed == old(sw.closed)
      {
        if i == 0 {
          assert hs[..0] == [];
          ThenFresh(lead);
        }
        sw.Write(Format(hdr, [ss[i].name]));
        RunText(lead, hs, i, Format(hdr, [ss[i].name]));
      }
      if |ss| == 0 {
        assert hs == [];
        ThenFresh(lead);
      }
      RunDone(hs, |ss|);
      AndThenStream(start, Text(MergedTimestampTitle(st)), Sequence(hs));
      WriteLineIsThen(sw.stream);
      sw.WriteLine();
      AndThenStream(start, AndThen(Text(MergedTimestampTitle(st)), Sequence(hs)), EndLine);
    }

    /** On an exception the writer closes its sink and rethrows it. */
    method Write(ss: seq<Series>, render: Render) returns (fault: Option<Fault>)
      modifies base.writer
      ensures base.writer.stream == old(base.writer.stream).Then(MergedBody(base.settings, ss, render).out)
      ensures fault == MergedBody(base.settings, ss, render).fault
      ensures base.writer.closed == (old(base.writer.closed) || (fault.Some? && base.settings.ToFile()))
    {
      var data := ss;
      if base.settings.readRaw {
        var merged, mergeFault := Program.Merge(ss);
        if mergeFault.Some? {
          WriteNothing(base.writer.stream);
          fault := mergeFault;
          base.Close();
          return;
        }
        data := merged[..];
      }
      assert data == MergedData(base.settings, ss);
      if |data| == 0 {
        WriteNothing(base.writer.stream);
        fault := Some(IndexOutOfRange);
      } else {
        fault := WriteRows(data, render);
      }
      if fault.Some? {
        base.Close();
      }
    }

    method WriteRows(data: seq<Series>, render: Render) returns (fault: Option<Fault>)
      requires 0 < |data|
      modifies base.writer
      ensures base.writer.stream == old(base.writer.stream).Then(Sequence(MergedRows(base.settings, data, render)).out)
      ensures fault == Sequence(MergedRows(base.settings, data, render)).fault
      ensures base.writer.closed == old(base.writer.closed)
    {
      var sw := base.writer;
      ghost var start := sw.stream;
      ghost var rs := MergedRows(base.settings, data, render);
      fault := None;
      var j := 0;
      while j < |data[0].samples| && fault == None
        invariant 0 <= j <= |data[0].samples|
        invariant sw.stream == start.Then(Sequence(rs[..j]).out) && fault == Sequence(rs[..j]).fault
        invariant sw.closed == old(sw.closed)
      {
        SequenceStep(start, rs, j);
        fault := WriteRow(data, j, render);
        j := j + 1;
      }
      RunDone(rs, j);
    }

    method WriteRow(data: seq<Series>, j: nat, render: Render) returns (fault: Option<Fault>)
      requires 0 < |data| && j < |data[0].samples|
      modifies base.writer
      ensures base.writer.stream == old(base.writer.stream).Then(MergedRow(base.settings, data, j, render).out)
      ensures fault == MergedRow(base.settings, data, j, render).fault
      ensures base.writer.closed == old(base.writer.closed)
    {
      var sw := base.writer;
      var st := base.settings;
      ghost var start := sw.stream;
      var ts := TimestampText(st, render, data[0].samples[j].timestamp);
      base.WriteTimestamp(data[0].samples[j].timestamp, render);
      ghost var lead := sw.stream;
      ghost var cs := MergedCells(st, data, j, render);
      fault := None;
      var i := 0;
      while i < |data| && fault == None
        invariant 0 <= i <= |data|
        invariant sw.stream == lead.Then(Sequence(cs[..i]).out) && fault == Sequence(cs[..i]).fault
        invariant sw.closed == old(sw.closed)
      {
        if j < |data[i].samples| {
          WriteEntry(data[i].samples[j], render);
          RunText(lead, cs, i, MergedEntry(st, data[i].samples[j], render));
        } else {
          sw.Write(st.separator);
          fault := Some(ArgumentOutOfRange);
          RunAbort(lead, cs, i, st.separator, ArgumentOutOfRange);
        }
        i := i + 1;
      }
      RunDone(cs, i);
      AndThenStream(start, Text(ts), Sequence(cs));
      if fault == None {
        WriteLineIsThen(sw.stream);
        sw.WriteLine();
        AndThenStream(start, AndThen(Text(ts), Sequence(cs)), EndLine);
      }
    }

    /** One tag's part of a row: each field after its own separator. */
    method WriteEntry(x: Sample, render: Render)
      modifies base.writer
      ensures base.writer.stream == old(base.writer.stream).Write(MergedEntry(base.settings, x, render))
      ensures base.writer.closed == old(base.writer.closed)
    {
      var sw := base.writer;
      var st := base.settings;
      var sep := st.separator;
      ghost var start := sw.stream;
      sw.Write(sep);
      if x.value == None {
        sw.Write(" ");
      } else {
        sw.Write(render.scalar(x.value.value));
      }
      ghost var v := sep + Program.ValueText(x, render, " ");
      WriteWrite(start, sep, Program.ValueText(x, render, " "));
      ghost var da := if st.quality.WithDa() then sep + render.daText(x.quality) else "";
      if st.quality.WithDa() {
        // the quality is a struct, so its null test never holds
        sw.Write(sep);
        sw.Write(render.daText(x.quality));
        WriteWrite(start.Write(v), sep, render.daText(x.quality));
      } else {
        WriteNothing(sw.stream);
      }
      WriteWrite(start, v, da);
      ghost var hist := if st.quality.WithHist() then sep + render.histText(x.histQuality) else "";
      if st.quality.WithHist() {
        sw.Write(sep + render.histText(x.histQuality));
      } else {
        WriteNothing(sw.stream);
      }
      WriteWrite(start, v + da, hist);
    }
  }

  // ---------------------------------------------------------------------------
  // Table layout: each tag's own timestamp, value and qualities, side by side
  // ---------------------------------------------------------------------------

  /** The table header template: the timestamp titles and {0}, then " {0} da quality"
      and " {0} hist quality" after a separator each when selected. */
  function TableHeaderTemplate(st: Settings): (template: seq<Piece>)
    ensures Fits(template, 1)
  {
    var sep := st.separator;
    (if st.SplitDateTime() then [Lit("Date" + sep + "Time" + sep), Arg(0)] else [Lit("Timestamp" + sep), Arg(0)])
      + (if st.quality.WithDa() then [Lit(sep + " "), Arg(0), Lit(" da quality")] else [])
      + (if st.quality.WithHist() then [Lit(sep + " "), Arg(0), Lit(" hist quality")] else [])
  }

  /** The separator that goes before every tag but the first. */
  function Lead(st: Settings, i: nat): string
  {
    if i == 0 then "" else st.separator
  }

  function TableHeadings(st: Settings, ss: seq<Series>): (hs: seq<Emission>)
    ensures |hs| == |ss|
    ensures forall i :: 0 <= i < |ss| ==> hs[i] == Text(Lead(st, i) + Format(TableHeaderTemplate(st), [ss[i].name]))
  {
    seq(|ss|, i requires 0 <= i < |ss| => Text(Lead(st, i) + Format(TableHeaderTemplate(st), [ss[i].name])))
  }

  /** TableOutputWriter.WriteHeader: the template filled with each tag name, separated;
      without a series, reading series 0's name throws before anything is written. */
  function TableHeader(st: Settings, ss: seq<Series>): Emission
  {
    if |ss| == 0 then Abort("", IndexOutOfRange) else AndThen(Sequence(TableHeadings(st, ss)), EndLine)
  }

  /** What an exhausted tag gets: one separator per column after the first, so
      as many as a filled cell writes. */
  function TableEmpty(st: Settings): string
  {
    st.separator
      + (if st.SplitDateTime() then st.separator else "")
      + (if st.quality.WithDa() then st.separator else "")
      + (if st.quality.WithHist() then st.separator else "")
  }

  /** The largest number of samples of any series (Enumerable.Max). */
  function MaxCount(ss: seq<Series>): (m: nat)
    requires 0 < |ss|
    ensures forall i :: 0 <= i < |ss| ==> |ss[i].samples| <= m
    ensures exists i :: 0 <= i < |ss| && |ss[i].samples| == m
  {
    if |ss| == 1 then |ss[0].samples|
    else
      var m := MaxCount(ss[..|ss| - 1]);
      assert forall i :: 0 <= i < |ss| - 1 ==> ss[..|ss| - 1][i] == ss[i];
      if |ss[|ss| - 1].samples| > m then |ss[|ss| - 1].samples| else m
  }

  /** Tag i's cell of row j: series 0's timestamp at j (which throws when series 0
      is the shorter) and the tag's value and qualities, or the padding once the
      tag's series is exhausted. */
  function TableCell(st: Settings, ss: seq<Series>, i: nat, j: nat, render: Render): Emission
    requires i < |ss|
  {
    if j < |ss[i].samples| then
      if j < |ss[0].samples| then
        Text(Lead(st, i) + TimestampText(st, render, ss[0].samples[j].timestamp)
             + Format(ValueTemplate(st), ValueArgs(ss[i].samples[j], render)))
      else Abort(Lead(st, i), ArgumentOutOfRange)
    else Text(Lead(st, i) + TableEmpty(st))
  }

  function TableCells(st: Settings, ss: seq<Series>, j: nat, render: Render): (cs: seq<Emission>)
    ensures |cs| == |ss|
    ensures forall i :: 0 <= i < |ss| ==> cs[i] == TableCell(st, ss, i, j, render)
  {
    seq(|ss|, i requires 0 <= i < |ss| => TableCell(st, ss, i, j, render))
  }

  function TableRow(st: Settings, ss: seq<Series>, j: nat, render: Render): Emission
  {
    AndThen(Sequence(TableCells(st, ss, j, render)), EndLine)
  }

  function TableRows(st: Settings, ss: seq<Series>, render: Render): (rs: seq<Emission>)
    requires 0 < |ss|
    ensures |rs| == MaxCount(ss)
    ensures forall j :: 0 <= j < MaxCount(ss) ==> rs[j] == TableRow(st, ss, j, render)
  {
    seq(MaxCount(ss), j requires 0 <= j < MaxCount(ss) => TableRow(st, ss, j, render))
  }

  /** TableOutputWriter.Write: one row per index below the longest series' length;
      without a series, Max throws before anything is written. */
  function TableBody(st: Settings, ss: seq<Series>, render: Render): Emission
  {
    if |ss| == 0 then Abort("", EmptySequence) else Sequence(TableRows(st, ss, render))
  }

  class TableOutputWriter {
    const base: OutputWriter

    constructor (settings: Settings)
      ensures base.settings == settings
      ensures fresh(base) && fresh(base.writer) && base.writer.stream == Fresh && !base.writer.closed
    {
      base := new OutputWriter(settings);
    }

    method WriteHeader(ss: seq<Series>) returns (fault: Option<Fault>)
      modifies base.writer
      ensures base.writer.stream == old(base.writer.stream).Then(TableHeader(base.settings, ss).out)
      ensures fault == TableHeader(base.settings, ss).fault
      ensures base.writer.closed == (old(base.writer.closed) || (fault.Some? && base.settings.ToFile()))
    {
      var sw := base.writer;
      var st := base.settings;
      var sep := st.separator;
      var hdr;
      if st.SplitDateTime() {
        hdr := [Lit("Date" + sep + "Time" + sep), Arg(0)];
      } else {
        hdr := [Lit("Timestamp" + sep), Arg(0)];
      }
      if st.quality.WithDa() {
        hdr := hdr + [Lit(sep + " "), Arg(0), Lit(" da quality")];
      }
      if st.quality.WithHist() {
        hdr := hdr + [Lit(sep + " "), Arg(0), Lit(" hist quality")];
      }
      assert hdr == TableHeaderTemplate(st);
      if |ss| == 0 {
        WriteNothing(sw.stream);
        fault := Some(IndexOutOfRange);
        base.Close();
        return;
      }
      ghost var start := sw.stream;
      ghost var hs := TableHeadings(st, ss);
      sw.Write(Format(hdr, [ss[0].name]));
      assert hs[..0] == [];
      ThenFresh(start);
      RunText(start, hs, 0, Format(hdr, [ss[0].name]));
      for i := 1 to |ss|
        invariant sw.stream == start.Then(Sequence(hs[..i]).out) && Sequence(hs[..i]).fault == None
        invariant sw.closed == old(sw.closed)
      {
        ghost var before := sw.stream;
        sw.Write(sep);
        sw.Write(Format(hdr, [ss[i].name]));
        WriteWrite(before, sep, Format(hdr, [ss[i].name]));
        RunText(start, hs, i, sep + Format(hdr, [ss[i].name]));
      }
      RunDone(hs, |ss|);
      WriteLineIsThen(sw.stream);
      sw.WriteLine();
      AndThenStream(start, Sequence(hs), EndLine);
      fault := None;
    }

    method Write(ss: seq<Series>, render: Render) returns (fault: Option<Fault>)
      modifies base.writer
      ensures base.writer.stream == old(base.writer.stream).Then(TableBody(base.settings, ss, render).out)
      ensures fault == TableBody(base.settings, ss, render).fault
      ensures base.writer.closed == (old(base.writer.closed) || (fault.Some? && base.settings.ToFile()))
    {
      var st := base.settings;
      var sep := st.separator;
      var valstr := [Lit(sep), Arg(0)];
      var emptystr := sep;
      if st.SplitDateTime() {
        emptystr := emptystr + sep;
      }
      if st.quality.WithDa() {
        valstr := valstr + [Lit(sep), Arg(1)];
        emptystr := emptystr + sep;
      }
      if st.quality.WithHist() {
        valstr := valstr + [Lit(sep), Arg(2)];
        emptystr := emptystr + sep;
      }
      assert valstr == ValueTemplate(st) && emptystr == TableEmpty(st);
      if |ss| == 0 {
        WriteNothing(base.writer.stream);
        fault := Some(EmptySequence);
      } else {
        var maxRows := MaxCount(ss);
        fault := WriteRows(ss, maxRows, valstr, emptystr, render);
      }
      if fault.Some? {
        base.Close();
      }
    }

    method WriteRows(ss: seq<Series>, maxRows: nat, valstr: seq<Piece>, emptystr: string, render: Render)
      returns (fault: Option<Fault>)
      requires 0 < |ss| && maxRows == MaxCount(ss)
      requires valstr == ValueTemplate(base.settings) && emptystr == TableEmpty(base.settings)
      modifies base.writer
      ensures base.writer.stream == old(base.writer.stream).Then(Sequence(TableRows(base.settings, ss, render)).out)
      ensures fault == Sequence(TableRows(base.settings, ss, render)).fault
      ensures base.writer.closed == old(base.writer.closed)
    {
      var sw := base.writer;
      ghost var start := sw.stream;
      ghost var rs := TableRows(base.settings, ss, render);
      fault := None;
      var j := 0;
      while j < maxRows && fault == None
        invariant 0 <= j <= maxRows
        invariant sw.stream == start.Then(Sequence(rs[..j]).out) && fault == Sequence(rs[..j]).fault
        invariant sw.closed == old(sw.closed)
      {
        SequenceStep(start, rs, j);
        fault := WriteRow(ss, j, valstr, emptystr, render);
        j := j + 1;
      }
      RunDone(rs, j);
    }

    method WriteRow(ss: seq<Series>, j: nat, valstr: seq<Piece>, emptystr: string, render: Render)
      returns (fault: Option<Fault>)
      requires 0 < |ss|
      requires valstr == ValueTemplate(base.settings) && emptystr == TableEmpty(base.settings)
      modifies base.writer
      ensures base.writer.stream == old(base.writer.stream).Then(TableRow(base.settings, ss, j, render).out)
      ensures fault == TableRow(base.settings, ss, j, render).fault
      ensures base.writer.closed == old(base.writer.closed)
    {
      var sw := base.writer;
      var st := base.settings;
      ghost var start := sw.stream;
      ghost var cs := TableCells(st, ss, j, render);
      fault := None;
      var i := 0;
      while i < |ss| && fault == None
        invariant 0 <= i <= |ss|
        invariant sw.stream == start.Then(Sequence(cs[..i]).out) && fault == Sequence(cs[..i]).fault
        invariant sw.closed == old(sw.closed)
      {
        fault := WriteCell(ss, i, j, valstr, emptystr, render);
        RunPartial(start, cs, i);
        i := i + 1;
      }
      RunDone(cs, i);
      if fault == None {
        WriteLineIsThen(sw.stream);
        sw.WriteLine();
        AndThenStream(start, Sequence(cs), EndLine);
      }
    }


    /** Tag i's cell of row j, after the separator that parts it from the previous tag. */
    method WriteCell(ss: seq<Series>, i: nat, j: nat, valstr: seq<Piece>, emptystr: string, render: Render)
      returns (fault: Option<Fault>)
      requires i < |ss|
      requires valstr == ValueTemplate(base.settings) && emptystr == TableEmpty(base.settings)
      modifies base.writer
      ensures TableCell(base.settings, ss, i, j, render).out.lines == []
      ensures base.writer.stream == old(base.writer.stream).Write(TableCell(base.settings, ss, i, j, render).out.partial)
      ensures fault == TableCell(base.settings, ss, i, j, render).fault
      ensures base.writer.closed == old(base.writer.closed)
    {
      var sw := base.writer;
      var st := base.settings;
      ghost var before := sw.stream;
      if i > 0 {
        sw.Write(st.separator);
      } else {
        WriteNothing(sw.stream);
      }
      fault := None;
      if j < |ss[i].samples| {
        if j < |ss[0].samples| {
          var ts := TimestampText(st, render, ss[0].samples[j].timestamp);
          var rest := Format(valstr, ValueArgs(ss[i].samples[j], render));
          base.WriteTimestamp(ss[0].samples[j].timestamp, render);
          sw.Write(rest);
          WriteWrite(before.Write(Lead(st, i)), ts, rest);
          WriteWrite(before, Lead(st, i), ts + rest);
        } else {
          fault := Some(ArgumentOutOfRange);
        }
      } else {
        sw.Write(emptystr);
        WriteWrite(before, Lead(st, i), emptystr);
      }
    }
  }

  // ---------------------------------------------------------------------------
  // Record layout: one line per sample, tag by tag
  // ---------------------------------------------------------------------------

  /** The record header: the timestamp titles, "Tag", "Value" and the selected quality titles. */
  function RecordTitle(st: Settings): string
  {
    var sep := st.separator;
    (if st.SplitDateTime() then "Date" + sep + "Time" else "Timestamp")
      + sep + "Tag" + sep + "Value"
      + (if st.quality.WithDa() then sep + "DA quality" else "")
      + (if st.quality.WithHist() then sep + "Hist quality" else "")
  }

  /** RecordOutputWriter.WriteHeader: the title line. */
  function RecordHeader(st: Settings): Emission
  {
    Lines([RecordTitle(st)])
  }

  /** The line of one sample: its timestamp, the separator and the tag name, then
      the value template filled with the sample's value and qualities. */
  function RecordLine(st: Settings, name: string, x: Sample, render: Render): string
  {
    TimestampText(st, render, x.timestamp) + st.separator + name + Format(ValueTemplate(st), ValueArgs(x, render))
  }

  /** The lines of one series, in sample order. */
  function RecordBlock(st: Settings, s: Series, render: Render): (ls: seq<string>)
    ensures |ls| == |s.samples|
    ensures forall k :: 0 <= k < |s.samples| ==> ls[k] == RecordLine(st, s.name, s.samples[k], render)
  {
    seq(|s.samples|, k requires 0 <= k < |s.samples| => RecordLine(st, s.name, s.samples[k], render))
  }

  function RecordBlocks(st: Settings, ss: seq<Series>, render: Render): (bs: seq<seq<string>>)
    ensures |bs| == |ss|
    ensures forall i :: 0 <= i < |ss| ==> bs[i] == RecordBlock(st, ss[i], render)
  {
    seq(|ss|, i requires 0 <= i < |ss| => RecordBlock(st, ss[i], render))
  }

  /** RecordOutputWriter.Write: every series' lines, in tag order; nothing it reads can throw. */
  function RecordBody(st: Settings, ss: seq<Series>, render: Render): Emission
  {
    Lines(Flatten(RecordBlocks(st, ss, render)))
  }

  class RecordOutputWriter {
    const base: OutputWriter

    constructor (settings: Settings)
      ensures base.settings == settings
      ensures fresh(base) && fresh(base.writer) && base.writer.stream == Fresh && !base.writer.closed
    {
      base := new OutputWriter(settings);
    }

    method WriteHeader(ss: seq<Series>)
      modifies base.writer
      ensures base.writer.stream == old(base.writer.stream).Then(RecordHeader(base.settings).out)
      ensures base.writer.closed == old(base.writer.closed)
    {
      var st := base.settings;
      var sep := st.separator;
      var hdr;
      if st.SplitDateTime() {
        hdr := "Date" + sep + "Time";
      } else {
        hdr := "Timestamp";
      }
      hdr := hdr + sep + "Tag" + sep + "Value";
      ghost var h0 := hdr;
      if st.quality.WithDa() {
        hdr := hdr + sep + "DA quality";
        assert hdr == h0 + (sep + "DA quality");
      } else {
        assert h0 + "" == h0;
      }
      ghost var h1 := hdr;
      if st.quality.WithHist() {
        hdr := hdr + sep + "Hist quality";
        assert hdr == h1 + (sep + "Hist quality");
      } else {
        assert h1 + "" == h1;
      }
      assert hdr == RecordTitle(st);
      ghost var start := base.writer.stream;
      base.writer.Write(hdr);
      base.writer.WriteLine();
      ThenFresh(start);
      LinesStep(start, [], hdr);
    }

    method Write(ss: seq<Series>, render: Render)
      modifies base.writer
      ensures base.writer.stream == old(base.writer.stream).Then(RecordBody(base.settings, ss, render).out)
      ensures base.writer.closed == old(base.writer.closed)
    {
      var sw := base.writer;
      var st := base.settings;
      var sep := st.separator;
      var valstr := [Lit(sep), Arg(0)];
      if st.quality.WithDa() {
        valstr := valstr + [Lit(sep), Arg(1)];
      }
      if st.quality.WithHist() {
        valstr := valstr + [Lit(sep), Arg(2)];
      }
      assert valstr == ValueTemplate(st);
      ghost var start := sw.stream;
      ghost var bs := RecordBlocks(st, ss, render);
      ThenFresh(start);
      assert bs[..0] == [];
      for i := 0 to |ss|
        invariant sw.stream == start.Then(Stream(Flatten(bs[..i]), ""))
        invariant sw.closed == old(sw.closed)
      {
        WriteSeries(ss[i], valstr, render);
        assert bs[..i + 1] == bs[..i] + [bs[i]];
        FlattenSnoc(bs[..i], bs[i]);
        LinesThen(Flatten(bs[..i]), bs[i]);
        ThenAssoc(start, Stream(Flatten(bs[..i]), ""), Stream(bs[i], ""));
      }
      assert bs[..|ss|] == bs;
    }

    /** The lines of one series. */
    method WriteSeries(s: Series, valstr: seq<Piece>, render: Render)
      requires valstr == ValueTemplate(base.settings)
      modifies base.writer
      ensures base.writer.stream == old(base.writer.stream).Then(Stream(RecordBlock(base.settings, s, render), ""))
      ensures base.writer.closed == old(base.writer.closed)
    {
      var sw := base.writer;
      var st := base.settings;
      ghost var start := sw.stream;
      ghost var ls := RecordBlock(st, s, render);
      ThenFresh(start);
      assert ls[..0] == [];
      for k := 0 to |s.samples|
        invariant sw.stream == start.Then(Stream(ls[..k], ""))
        invariant sw.closed == old(sw.closed)
      {
        var x := s.samples[k];
        ghost var before := sw.stream;
        var ts := TimestampText(st, render, x.timestamp);
        var rest := Format(valstr, ValueArgs(x, render));
        base.WriteTimestamp(x.timestamp, render);
        sw.Write(st.separator + s.name);
        sw.Write(rest);
        WriteWrite(before, ts, st.separator + s.name);
        WriteWrite(before, ts + (st.separator + s.name), rest);
        assert ts + (st.separator + s.name) + rest == RecordLine(st, s.name, x, render);
        sw.WriteLine();
        LinesStep(start, ls[..k], ls[k]);
        assert ls[..k + 1] == ls[..k] + [ls[k]];
      }
      assert ls[..|s.samples|] == ls;
    }
  }
}
