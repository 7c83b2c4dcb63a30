/**
 * The text side shared by every layout: the output sink (a StreamWriter seen as
 * the lines it has finished plus the line it is still writing), what one write
 * operation emits (text, possibly cut short by an exception), delimiter joins,
 * .NET composite-format templates ("{0}"), and the foreign text renderers.
 */
module TextOut {
  import opened Samples

  /** A text sink: the finished lines and the unterminated last line. */
  datatype Stream = Stream(lines: seq<string>, partial: string) {

    /** TextWriter.Write(s) */
    function Write(s: string): Stream
    {
      Stream(lines, partial + s)
    }

    /** TextWriter.WriteLine(): terminates the current line. */
    function WriteLine(): Stream
    {
      Stream(lines + [partial], "")
    }

    /** The sink after it has further received everything `o` describes
        (o's first line continues the current partial line). */
    function Then(o: Stream): Stream
    {
      if o.lines == [] then Stream(lines, partial + o.partial)
      else Stream(lines + [partial + o.lines[0]] + o.lines[1..], o.partial)
    }
  }

  /** A sink nothing has been written to. */
  const Fresh: Stream := Stream([], "")

  lemma FreshThen(o: Stream)
    ensures Fresh.Then(o) == o
  {
    if o.lines != [] {
      assert "" + o.lines[0] == o.lines[0];
      assert [] + [o.lines[0]] + o.lines[1..] == o.lines;
    } else {
      assert "" + o.partial == o.partial;
    }
  }

  lemma ThenFresh(s: Stream)
    ensures s.Then(Fresh) == s
  {
  }

  lemma ThenWrite(s: Stream, o: Stream, x: string)
    ensures s.Then(o).Write(x) == s.Then(o.Write(x))
  {
  }

  lemma ThenWriteLine(s: Stream, o: Stream)
    ensures s.Then(o).WriteLine() == s.Then(o.WriteLine())
  {
    if o.lines != [] {
      assert (o.lines + [o.partial])[1..] == o.lines[1..] + [o.partial];
    }
  }

  lemma ThenAssoc(a: Stream, b: Stream, c: Stream)
    ensures a.Then(b).Then(c) == a.Then(b.Then(c))
  {
    if b.lines != [] && c.lines != [] {
      assert (b.lines + [b.partial + c.lines[0]] + c.lines[1..])[0] == b.lines[0];
      assert (b.lines + [b.partial + c.lines[0]] + c.lines[1..])[1..]
          == b.lines[1..] + [b.partial + c.lines[0]] + c.lines[1..];
    } else if b.lines != [] {
    } else if c.lines != [] {
      assert (a.partial + b.partial) + c.lines[0] == a.partial + (b.partial + c.lines[0]);
    }
  }

  /** The exceptions a write operation can raise from the data it is given. */
  datatype Fault =
    | IndexOutOfRange      // indexing the array of series
    | ArgumentOutOfRange   // indexing a series past its end
    | NullReference        // ToString() on an unset value or quality
    | EmptySequence        // Enumerable.Max over no series

  /** What one operation sends to the sink, and the exception that cut it short, if any. */
  datatype Emission = Emission(out: Stream, fault: Option<Fault>)

  /** Text written without a fault. */
  function Text(s: string): Emission
  {
    Emission(Stream([], s), None)
  }

  /** A line terminator. */
  const EndLine: Emission := Emission(Stream([""], ""), None)

  /** `s` was written and then the exception `f` was raised. */
  function Abort(s: string, f: Fault): Emission
  {
    Emission(Stream([], s), Some(f))
  }

  /** Run `a`, then, unless it raised, `b`. */
  function AndThen(a: Emission, b: Emission): Emission
  {
    if a.fault.Some? then a else Emission(a.out.Then(b.out), b.fault)
  }

  lemma AndThenAssoc(a: Emission, b: Emission, c: Emission)
    ensures AndThen(AndThen(a, b), c) == AndThen(a, AndThen(b, c))
  {
    if a.fault.None? && b.fault.None? {
      ThenAssoc(a.out, b.out, c.out);
    }
  }

  lemma AndThenNothing(a: Emission)
    requires a.fault.None?
    ensures AndThen(a, Text("")) == a
  {
  }

  /** Emissions run one after the other; the first exception stops the rest. */
  function Sequence(es: seq<Emission>): Emission
  {
    if es == [] then Text("") else AndThen(Sequence(es[..|es| - 1]), es[|es| - 1])
  }

  lemma SequenceSnoc(es: seq<Emission>, e: Emission)
    ensures Sequence(es + [e]) == AndThen(Sequence(es), e)
  {
    assert (es + [e])[..|es|] == es;
  }

  /** Once a prefix has raised, the rest is never run. */
  lemma {:induction false} SequenceStuck(es: seq<Emission>, j: nat)
    requires j <= |es| && Sequence(es[..j]).fault.Some?
    ensures Sequence(es) == Sequence(es[..j])
    decreases |es| - j
  {
    if j < |es| {
      var front := es[..|es| - 1];
      assert front[..j] == es[..j];
      SequenceStuck(front, j);
    } else {
      assert es[..j] == es;
    }
  }

  /** What a sink holds after one more emission of a sequence has been run. */
  lemma SequenceStep(start: Stream, es: seq<Emission>, i: nat)
    requires i < |es| && Sequence(es[..i]).fault == None
    ensures start.Then(Sequence(es[..i + 1]).out) == start.Then(Sequence(es[..i]).out).Then(es[i].out)
    ensures Sequence(es[..i + 1]).fault == es[i].fault
  {
    assert es[..i + 1] == es[..i] + [es[i]];
    SequenceSnoc(es[..i], es[i]);
    ThenAssoc(start, Sequence(es[..i]).out, es[i].out);
  }

  /** Running text `w` that is the next emission of a sequence. */
  lemma RunText(start: Stream, es: seq<Emission>, i: nat, w: string)
    requires i < |es| && Sequence(es[..i]).fault == None && es[i] == Text(w)
    ensures start.Then(Sequence(es[..i]).out).Write(w) == start.Then(Sequence(es[..i + 1]).out)
    ensures Sequence(es[..i + 1]).fault == None
  {
    SequenceStep(start, es, i);
  }

  /** Running `w` and then raising f, the next emission of a sequence. */
  lemma RunAbort(start: Stream, es: seq<Emission>, i: nat, w: string, f: Fault)
    requires i < |es| && Sequence(es[..i]).fault == None && es[i] == Abort(w, f)
    ensures start.Then(Sequence(es[..i]).out).Write(w) == start.Then(Sequence(es[..i + 1]).out)
    ensures Sequence(es[..i + 1]).fault == Some(f)
  {
    SequenceStep(start, es, i);
  }

  /** Running the next emission of a sequence, when it writes within the current line. */
  lemma RunPartial(start: Stream, es: seq<Emission>, i: nat)
    requires i < |es| && Sequence(es[..i]).fault == None && es[i].out.lines == []
    ensures start.Then(Sequence(es[..i]).out).Write(es[i].out.partial) == start.Then(Sequence(es[..i + 1]).out)
    ensures Sequence(es[..i + 1]).fault == es[i].fault
  {
    SequenceStep(start, es, i);
  }

  /** A sequence that ran to its end, or stopped at an exception, is the whole sequence. */
  lemma RunDone(es: seq<Emission>, i: nat)
    requires i <= |es| && (i == |es| || Sequence(es[..i]).fault.Some?)
    ensures Sequence(es[..i]) == Sequence(es)
  {
    if i == |es| {
      assert es[..i] == es;
    } else {
      SequenceStuck(es, i);
    }
  }

  lemma WriteWrite(st: Stream, a: string, b: string)
    ensures st.Write(a).Write(b) == st.Write(a + b)
  {
    assert st.partial + a + b == st.partial + (a + b);
  }

  lemma WriteNothing(st: Stream)
    ensures st.Write("") == st
  {
    assert st.partial + "" == st.partial;
  }

  /** A sequence raises exactly when one of its emissions does, and then raises that one's exception. */
  lemma {:induction false} SequenceFault(es: seq<Emission>)
    ensures Sequence(es).fault == None <==> forall k :: 0 <= k < |es| ==> es[k].fault == None
    ensures Sequence(es).fault == None || exists k :: 0 <= k < |es| && Sequence(es).fault == es[k].fault
  {
    if es != [] {
      var n := |es| - 1;
      SequenceFault(es[..n]);
      assert forall k :: 0 <= k < n ==> es[..n][k] == es[k];
    }
  }

  lemma AndThenStream(start: Stream, a: Emission, b: Emission)
    requires a.fault == None
    ensures start.Then(AndThen(a, b).out) == start.Then(a.out).Then(b.out)
    ensures AndThen(a, b).fault == b.fault
  {
    ThenAssoc(start, a.out, b.out);
  }

  lemma WriteLineIsThen(s: Stream)
    ensures s.WriteLine() == s.Then(EndLine.out)
  {
    assert s.partial + "" == s.partial;
    assert [""][1..] == [];
  }

  /** Whole lines written without a fault. */
  function Lines(ls: seq<string>): Emission
  {
    Emission(Stream(ls, ""), None)
  }

  lemma LinesThen(a: seq<string>, b: seq<string>)
    ensures AndThen(Lines(a), Lines(b)) == Lines(a + b)
  {
    if b != [] {
      assert "" + b[0] == b[0];
      assert a + [b[0]] + b[1..] == a + b;
    }
  }

  /** A line's text, then its terminator. */
  lemma TextEndLine(p: string)
    ensures AndThen(Text(p), EndLine) == Lines([p])
  {
    assert p + "" == p;
    assert [] + [p] + [""][1..] == [p];
  }

  /** A further line written to a sink that has received whole lines. */
  lemma LinesStep(start: Stream, ls: seq<string>, l: string)
    ensures start.Then(Stream(ls, "")).Write(l).WriteLine() == start.Then(Stream(ls + [l], ""))
  {
    ThenWrite(start, Stream(ls, ""), l);
    ThenWriteLine(start, Stream(ls, "").Write(l));
    assert "" + l == l;
  }

  /** Blocks of whole lines, run in order, give all their lines in order. */
  lemma {:induction false} SequenceLines(es: seq<Emission>, blocks: seq<seq<string>>)
    requires |es| == |blocks| && forall k :: 0 <= k < |es| ==> es[k] == Lines(blocks[k])
    ensures Sequence(es) == Lines(Flatten(blocks))
  {
    if es != [] {
      var n := |es| - 1;
      SequenceLines(es[..n], blocks[..n]);
      LinesThen(Flatten(blocks[..n]), blocks[n]);
    }
  }

  /** The concatenation of the strings, in order. */
  function Concat(ps: seq<string>): string
  {
    if ps == [] then "" else Concat(ps[..|ps| - 1]) + ps[|ps| - 1]
  }

  /** Pieces of text on one line, run in order, give their concatenation. */
  lemma {:induction false} SequenceTexts(es: seq<Emission>, ps: seq<string>)
    requires |es| == |ps| && forall k :: 0 <= k < |es| ==> es[k] == Text(ps[k])
    ensures Sequence(es) == Text(Concat(ps))
  {
    if es != [] {
      var n := |es| - 1;
      SequenceTexts(es[..n], ps[..n]);
    }
  }

  lemma FlattenSingletons(ls: seq<string>)
    ensures Flatten(seq(|ls|, k requires 0 <= k < |ls| => [ls[k]])) == ls
  {
    var n := |ls|;
    if n > 0 {
      var b := seq(n, k requires 0 <= k < n => [ls[k]]);
      assert b[..n - 1] == seq(n - 1, k requires 0 <= k < n - 1 => [ls[..n - 1][k]]);
      FlattenSingletons(ls[..n - 1]);
      assert ls == ls[..n - 1] + [ls[n - 1]];
    }
  }

  /** Fields separated by `sep`, as the writers lay a line out. */
  function Join(fields: seq<string>, sep: string): string
  {
    if |fields| == 0 then ""
    else if |fields| == 1 then fields[0]
    else Join(fields[..|fields| - 1], sep) + sep + fields[|fields| - 1]
  }

  lemma JoinSnoc(fields: seq<string>, x: string, sep: string)
    requires fields != []
    ensures Join(fields + [x], sep) == Join(fields, sep) + sep + x
  {
    assert (fields + [x])[..|fields|] == fields;
  }

  lemma {:induction false} JoinConcat(a: seq<string>, b: seq<string>, sep: string)
    requires a != [] && b != []
    ensures Join(a + b, sep) == Join(a, sep) + sep + Join(b, sep)
    decreases |b|
  {
    if |b| == 1 {
      JoinSnoc(a, b[0], sep);
      assert a + b == a + [b[0]];
    } else {
      var b' := b[..|b| - 1];
      var x := b[|b| - 1];
      assert b == b' + [x];
      assert a + b == (a + b') + [x];
      JoinSnoc(a + b', x, sep);
      JoinConcat(a, b', sep);
      JoinSnoc(b', x, sep);
    }
  }

  /** `k` empty fields: k - 1 separators. */
  function Blanks(k: nat): (r: seq<string>)
    ensures |r| == k && forall i :: 0 <= i < k ==> r[i] == ""
  {
    seq(k, _ => "")
  }

  function Repeat(s: string, k: nat): string
  {
    if k == 0 then "" else Repeat(s, k - 1) + s
  }

  lemma {:induction false} JoinBlanks(k: nat, sep: string)
    requires k > 0
    ensures Join(Blanks(k), sep) == Repeat(sep, k - 1)
  {
    if k > 1 {
      assert Blanks(k) == Blanks(k - 1) + [""];
      JoinSnoc(Blanks(k - 1), "", sep);
      JoinBlanks(k - 1, sep);
    }
  }

  /** Fields of consecutive cells, in order. */
  function Flatten(cells: seq<seq<string>>): seq<string>
  {
    if |cells| == 0 then [] else Flatten(cells[..|cells| - 1]) + cells[|cells| - 1]
  }

  lemma FlattenSnoc(cells: seq<seq<string>>, c: seq<string>)
    ensures Flatten(cells + [c]) == Flatten(cells) + c
  {
    assert (cells + [c])[..|cells|] == cells;
  }

  /** Cells of width w flatten to w fields each. */
  lemma {:induction false} FlattenLength(cells: seq<seq<string>>, w: nat)
    requires forall k :: 0 <= k < |cells| ==> |cells[k]| == w
    ensures |Flatten(cells)| == w * |cells|
  {
    if |cells| > 0 {
      var n := |cells| - 1;
      FlattenLength(cells[..n], w);
      MulStep(w, n);
    }
  }

  /** Cells of width w put cell k's field r at position w * k + r. */
  lemma {:induction false} FlattenAt(cells: seq<seq<string>>, w: nat, k: nat, r: nat)
    requires forall k :: 0 <= k < |cells| ==> |cells[k]| == w
    requires k < |cells| && r < w
    ensures w * k + r < |Flatten(cells)| && Flatten(cells)[w * k + r] == cells[k][r]
  {
    var n := |cells| - 1;
    var front := cells[..n];
    FlattenLength(front, w);
    FlattenLength(cells, w);
    assert Flatten(cells) == Flatten(front) + cells[n];
    if k < n {
      MulBelow(w, k, r, n);
      FlattenAt(front, w, k, r);
      assert front[k] == cells[k];
    }
  }

  /** After a lead group, cells of width w put cell k's field r at |lead| + w * k + r. */
  lemma LeadAt(lead: seq<string>, cells: seq<seq<string>>, w: nat, k: nat, r: nat)
    requires forall k :: 0 <= k < |cells| ==> |cells[k]| == w
    requires k < |cells| && r < w
    ensures |lead| + w * k + r < |lead + Flatten(cells)|
    ensures (lead + Flatten(cells))[|lead| + w * k + r] == cells[k][r]
  {
    FlattenAt(cells, w, k, r);
    LeadIndex(lead, Flatten(cells), w * k + r);
  }

  /** Column col of a grid of width-w cells, read off the flattened line. */
  lemma ColumnAt(cells: seq<seq<string>>, w: nat, col: nat, vals: seq<string>)
    requires forall k :: 0 <= k < |cells| ==> |cells[k]| == w
    requires col < w && |vals| == |cells|
    requires forall k :: 0 <= k < |cells| ==> cells[k][col] == vals[k]
    ensures |Flatten(cells)| == w * |cells|
    ensures forall k :: 0 <= k < |cells| ==>
      w * k + col < |Flatten(cells)| && Flatten(cells)[w * k + col] == vals[k]
  {
    forall k | 0 <= k < |cells|
      ensures w * k + col < |Flatten(cells)| && Flatten(cells)[w * k + col] == vals[k]
    {
      FlattenAt(cells, w, k, col);
    }
    FlattenLength(cells, w);
  }

  lemma LeadIndex(lead: seq<string>, f: seq<string>, x: nat)
    requires x < |f|
    ensures |lead| + x < |lead + f| && (lead + f)[|lead| + x] == f[x]
  {
  }

  lemma MulStep(w: nat, n: nat)
    ensures w * n + w == w * (n + 1)
  {
  }

  lemma MulBelow(w: nat, k: nat, r: nat, n: nat)
    requires k < n && r < w
    ensures w * k + r < w * n
  {
    assert w * k + w == w * (k + 1);
    assert w * (k + 1) <= w * n;
  }

  lemma {:induction false} FlattenNonEmpty(cells: seq<seq<string>>)
    requires cells != [] && cells[|cells| - 1] != []
    ensures Flatten(cells) != []
  {
  }

  /** Join over several non-empty cells is the cells' joins, separated. */
  lemma JoinCells(front: seq<string>, cells: seq<seq<string>>, c: seq<string>, sep: string)
    requires front != [] && c != []
    ensures Join(front + Flatten(cells + [c]), sep) == Join(front + Flatten(cells), sep) + sep + Join(c, sep)
  {
    FlattenSnoc(cells, c);
    assert front + Flatten(cells + [c]) == (front + Flatten(cells)) + c;
    JoinConcat(front + Flatten(cells), c, sep);
  }

  lemma JoinSmall(a: string, b: string, c: string, d: string, sep: string)
    ensures Join([a, b], sep) == a + sep + b
    ensures Join([a, b, c], sep) == a + sep + b + sep + c
    ensures Join([a, b, c, d], sep) == a + sep + b + sep + c + sep + d
  {
    assert [a, b][..1] == [a];
    assert [a, b, c][..2] == [a, b];
    assert [a, b, c, d][..3] == [a, b, c];
  }

  /** Each cell's joined fields, after a separator (none before the first if `leading`). */
  function CellTexts(cs: seq<seq<string>>, sep: string, leading: bool): (ps: seq<string>)
    ensures |ps| == |cs|
    ensures forall k :: 0 <= k < |cs| ==> ps[k] == (if k == 0 && leading then "" else sep) + Join(cs[k], sep)
  {
    seq(|cs|, k requires 0 <= k < |cs| => (if k == 0 && leading then "" else sep) + Join(cs[k], sep))
  }

  lemma CellTextsPrefix(cs: seq<seq<string>>, sep: string, leading: bool, n: nat)
    requires n <= |cs|
    ensures CellTexts(cs[..n], sep, leading) == CellTexts(cs, sep, leading)[..n]
  {
  }

  /** A line of cells, the first given as is and each further one after a separator. */
  lemma {:induction false} JoinLeading(cs: seq<seq<string>>, sep: string)
    requires cs != [] && forall k :: 0 <= k < |cs| ==> cs[k] != []
    ensures Join(Flatten(cs), sep) == Concat(CellTexts(cs, sep, true))
  {
    var n := |cs| - 1;
    var ps := CellTexts(cs, sep, true);
    if n == 0 {
      assert Flatten(cs) == cs[0];
      assert ps[..0] == [];
      assert ps[0] == "" + Join(cs[0], sep);
    } else {
      var front := cs[..n];
      JoinLeading(front, sep);
      CellTextsPrefix(cs, sep, true, n);
      FlattenNonEmpty(front);
      assert Flatten(cs) == Flatten(front) + cs[n];
      JoinConcat(Flatten(front), cs[n], sep);
      assert Concat(ps) == Concat(ps[..n]) + ps[n];
    }
  }

  /** A lead group of fields, then cells each written as a separator and its fields. */
  lemma {:induction false} JoinAfter(lead: seq<string>, cs: seq<seq<string>>, sep: string)
    requires lead != [] && forall k :: 0 <= k < |cs| ==> cs[k] != []
    ensures Join(lead + Flatten(cs), sep) == Join(lead, sep) + Concat(CellTexts(cs, sep, false))
  {
    var ps := CellTexts(cs, sep, false);
    if cs == [] {
      assert lead + Flatten(cs) == lead;
    } else {
      var n := |cs| - 1;
      var front := cs[..n];
      JoinAfter(lead, front, sep);
      JoinCells(lead, front, cs[n], sep);
      assert front + [cs[n]] == cs;
      CellTextsPrefix(cs, sep, false, n);
      assert Concat(ps) == Concat(ps[..n]) + ps[n];
    }
  }

  /** A piece of a .NET composite format string: literal text or a "{n}" hole. */
  datatype Piece = Lit(text: string) | Arg(index: nat)

  /** Every hole of the template has an argument. */
  predicate Fits(template: seq<Piece>, n: nat)
  {
    forall k :: 0 <= k < |template| && template[k].Arg? ==> template[k].index < n
  }

  /** String.Format(template, args) */
  function Format(template: seq<Piece>, args: seq<string>): string
    requires Fits(template, |args|)
  {
    if template == [] then "" else PieceText(template[0], args) + Format(template[1..], args)
  }

  function PieceText(p: Piece, args: seq<string>): string
    requires p.Arg? ==> p.index < |args|
  {
    match p
    case Lit(s) => s
    case Arg(n) => args[n]
  }

  /** Three template parts, filled one after the other. */
  lemma FormatAppend3(a: seq<Piece>, b: seq<Piece>, c: seq<Piece>, args: seq<string>)
    requires Fits(a, |args|) && Fits(b, |args|) && Fits(c, |args|)
    ensures Fits(a + b + c, |args|)
    ensures Format(a + b + c, args) == Format(a, args) + Format(b, args) + Format(c, args)
  {
    FormatAppend(a, b, args);
    FormatAppend(a + b, c, args);
  }

  lemma {:induction false} FormatAppend(a: seq<Piece>, b: seq<Piece>, args: seq<string>)
    requires Fits(a, |args|) && Fits(b, |args|)
    ensures Fits(a + b, |args|)
    ensures Format(a + b, args) == Format(a, args) + Format(b, args)
    decreases |a|
  {
    if a != [] {
      assert (a + b)[1..] == a[1..] + b;
      FormatAppend(a[1..], b, args);
    } else {
      assert a + b == b;
    }
  }

  lemma FormatOne(p: Piece, args: seq<string>)
    requires p.Arg? ==> p.index < |args|
    ensures Fits([p], |args|) && Format([p], args) == PieceText(p, args)
  {
    assert [p][1..] == [];
  }

  /** The foreign formatting calls, as given functions. */
  datatype Render = Render(
    plain: Timestamp -> string,                     // DateTime.ToString()
    pattern: (Timestamp, string) -> string,         // DateTime.ToString(fmt), current culture
    invariantCulture: (Timestamp, string) -> string, // DateTime.ToString(fmt, InvariantCulture)
    scalar: Scalar -> string,                       // Value.ToString()
    daText: DaQuality -> string,                    // Quality.ToString()
    histText: HistQuality -> string)                // HistorianQuality.ToString()

  /** GetDatetimeStr: the culture's default rendering unless a format is given. */
  function GetDatetimeStr(render: Render, t: Timestamp, fmt: Option<string>): string
  {
    if fmt == None || fmt.value == "" then render.plain(t) else render.pattern(t, fmt.value)
  }

  /** A StreamWriter: what has been written to it, and whether it was closed. */
  class TextSink {
    var stream: Stream
    var closed: bool

    constructor ()
      ensures stream == Fresh && !closed
    {
      stream := Fresh;
      closed := false;
    }

    method Write(s: string)
      modifies this
      ensures stream == old(stream).Write(s) && closed == old(closed)
    {
      stream := stream.Write(s);
    }

    method WriteLine()
      modifies this
      ensures stream == old(stream).WriteLine() && closed == old(closed)
    {
      stream := stream.WriteLine();
    }

    method Close()
      modifies this
      ensures stream == old(stream) && closed
    {
      closed := true;
    }
  }
}
