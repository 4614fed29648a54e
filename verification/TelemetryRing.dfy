/** The black box of runtime_logger.cpp: the ring of recent telemetry rows that fit its memory and
    its time window, the incident files that are cut from it, and the thinned continuous record. */
module TelemetryRing {
  import opened RobotBase

  /** `time` is when the row was queued, `size` what the ring's copy of it takes. `sample` is what
      strtod makes of the text: zero if it does not begin with a number, None if it begins with the
      spelling of NaN. */
  datatype Row = Row(stream: string, text: string, time: real, sample: Option<real>, size: nat)

  datatype Window = Window(memory: nat, seconds: real)

  /** What happens to the ring: a row is recorded under the header of its stream, or a capture
      begins and looks at the time. */
  datatype Moment = Recorded(header: string, row: Row) | Triggered(now: real)

  function TimeOf(m: Moment): real { match m case Recorded(_, row) => row.time case Triggered(now) => now }

  function Added(m: Moment): seq<Row> { if m.Recorded? then [m.row] else [] }

  function Rows(history: seq<Moment>): seq<Row> {
    if history == [] then [] else Rows(history[..|history| - 1]) + Added(history[|history| - 1])
  }

  function Size(rows: seq<Row>): nat { if rows == [] then 0 else rows[0].size + Size(rows[1..]) }

  /** What may be kept at the given time. */
  predicate Fits(w: Window, rows: seq<Row>, now: real) {
    rows == [] || (Size(rows) <= w.memory && now - rows[0].time <= w.seconds)
  }

  /** Drop the oldest rows until the rest fits. */
  function Evict(w: Window, rows: seq<Row>, now: real): seq<Row> {
    if Fits(w, rows, now) then rows else Evict(w, rows[1..], now)
  }

  predicate IsSuffix(tail: seq<Row>, rows: seq<Row>) {
    |tail| <= |rows| && rows[|rows| - |tail|..] == tail
  }

  lemma {:induction false} SizeAppend(rows: seq<Row>, r: Row)
    ensures Size(rows + [r]) == Size(rows) + r.size
  {
    if rows == [] {
    } else {
      assert (rows + [r])[1..] == rows[1..] + [r];
      SizeAppend(rows[1..], r);
    }
  }

  /** The longest end of the rows that fits at the given time. */
  ghost predicate Longest(w: Window, kept: seq<Row>, rows: seq<Row>, now: real) {
    && IsSuffix(kept, rows) && Fits(w, kept, now)
    && forall tail :: IsSuffix(tail, rows) && Fits(w, tail, now) ==> IsSuffix(tail, kept)
  }

  /** Eviction keeps the longest end of the rows that fits. */
  lemma {:induction false} EvictIsLongest(w: Window, rows: seq<Row>, now: real)
    ensures Longest(w, Evict(w, rows, now), rows, now)
  {
    if Fits(w, rows, now) {
    } else {
      EvictIsLongest(w, rows[1..], now);
      forall tail | IsSuffix(tail, rows) && Fits(w, tail, now)
        ensures IsSuffix(tail, Evict(w, rows, now))
      {
        assert tail != rows;
        assert rows[1..][|rows| - 1 - |tail|..] == rows[|rows| - |tail|..];
        assert IsSuffix(tail, rows[1..]);
      }
      var kept := Evict(w, rows[1..], now);
      assert rows[|rows| - |kept|..] == rows[1..][|rows| - 1 - |kept|..];
    }
  }

  /** The ring after everything that has happened to it. */
  function Ring(w: Window, history: seq<Moment>): seq<Row> {
    if history == [] then []
    else
      var last := history[|history| - 1];
      Evict(w, Ring(w, history[..|history| - 1]) + Added(last), TimeOf(last))
  }

  lemma Appended(w: Window, older: seq<Moment>, m: Moment)
    ensures Rows(older + [m]) == Rows(older) + Added(m)
    ensures Ring(w, older + [m]) == Evict(w, Ring(w, older) + Added(m), TimeOf(m))
  {
    assert (older + [m])[..|older|] == older;
  }

  lemma SuffixAppend(tail: seq<Row>, rows: seq<Row>, r: Row)
    ensures IsSuffix(tail, rows) <==> IsSuffix(tail + [r], rows + [r])
  {
    if |tail| <= |rows| {
      assert (rows + [r])[|rows| - |tail|..] == rows[|rows| - |tail|..] + [r];
      assert IsSuffix(tail + [r], rows + [r]) ==> rows[|rows| - |tail|..] == (tail + [r])[..|tail|];
    }
  }

  lemma SuffixTrans(a: seq<Row>, b: seq<Row>, c: seq<Row>)
    requires IsSuffix(a, b) && IsSuffix(b, c)
    ensures IsSuffix(a, c)
  {
    assert b[|b| - |a|..] == c[|c| - |a|..];
  }

  lemma SuffixAdd(tail: seq<Row>, rows: seq<Row>, added: seq<Row>)
    requires |added| <= 1
    ensures IsSuffix(tail, rows) <==> IsSuffix(tail + added, rows + added)
  {
    if |added| == 1 {
      SuffixAppend(tail, rows, added[0]);
      assert added == [added[0]];
    } else {
      assert added == [] && tail + added == tail && rows + added == rows;
    }
  }

  // ---------------------------------------------------------------- whole histories

  /** Some end of the older rows, at least as long as `front`, fitted at the moment before. */
  ghost predicate HadRoom(w: Window, older: seq<Moment>, front: seq<Row>) {
    older == [] || exists tail ::
      IsSuffix(tail, Rows(older)) && IsSuffix(front, tail) && Fits(w, tail, TimeOf(older[|older| - 1]))
  }

  /** Whatever fits together with the newest row fitted, or was covered, one moment ago. */
  ghost predicate Continues(w: Window, history: seq<Moment>) {
    history == [] ||
    var n := |history| - 1;
    forall front | IsSuffix(front, Rows(history[..n])) && Fits(w, front + Added(history[n]), TimeOf(history[n])) ::
      HadRoom(w, history[..n], front)
  }

  ghost predicate RingLongest(w: Window, history: seq<Moment>) {
    history == [] || Longest(w, Ring(w, history), Rows(history), TimeOf(history[|history| - 1]))
  }

  lemma EndsWith(tail: seq<Row>, rows: seq<Row>, added: seq<Row>) returns (front: seq<Row>)
    requires IsSuffix(tail, rows + added) && |added| <= 1 && (added == [] || tail != [])
    ensures tail == front + added && IsSuffix(front, rows)
  {
    var all := rows + added;
    front := tail[..|tail| - |added|];
    assert tail == all[|all| - |tail|..];
    assert rows[|all| - |tail|..] == all[|all| - |tail|..][..|tail| - |added|];
    if |added| == 1 {
      assert all[|all| - |tail|..][|tail| - 1] == all[|all| - 1];
    }
  }

  /** One more moment keeps the ring the longest end, if what fits now continues. */
  lemma LongestStep(w: Window, older: seq<Moment>, m: Moment)
    requires RingLongest(w, older) && Continues(w, older + [m])
    ensures RingLongest(w, older + [m])
  {
    var kept, history := Ring(w, older), older + [m];
    var next := Evict(w, kept + Added(m), TimeOf(m));
    Appended(w, older, m);
    RingIsEnd(w, older);
    assert history[..|older|] == older && history[|older|] == m;
    EvictIsLongest(w, kept + Added(m), TimeOf(m));
    SuffixAdd(kept, Rows(older), Added(m));
    SuffixTrans(next, kept + Added(m), Rows(history));
    forall tail | IsSuffix(tail, Rows(history)) && Fits(w, tail, TimeOf(m))
      ensures IsSuffix(tail, next)
    {
      if tail != [] {
        var front := EndsWith(tail, Rows(older), Added(m));
        FrontKept(w, older, front);
        SuffixAdd(front, kept, Added(m));
      }
    }
  }

  lemma FrontKept(w: Window, older: seq<Moment>, front: seq<Row>)
    requires RingLongest(w, older) && IsSuffix(front, Rows(older)) && HadRoom(w, older, front)
    ensures IsSuffix(front, Ring(w, older))
  {
    if older != [] {
      var tail :| IsSuffix(tail, Rows(older)) && IsSuffix(front, tail) && Fits(w, tail, TimeOf(older[|older| - 1]));
      SuffixTrans(front, tail, Ring(w, older));
    }
  }

  /** The ring is always an end of the rows recorded. */
  lemma {:induction false} RingIsEnd(w: Window, history: seq<Moment>)
    ensures IsSuffix(Ring(w, history), Rows(history))
    decreases |history|
  {
    if history != [] {
      var older, m := history[..|history| - 1], history[|history| - 1];
      RingIsEnd(w, older);
      EvictIsLongest(w, Ring(w, older) + Added(m), TimeOf(m));
      SuffixAdd(Ring(w, older), Rows(older), Added(m));
      SuffixTrans(Ring(w, history), Ring(w, older) + Added(m), Rows(history));
    }
  }

  lemma RingFits(w: Window, history: seq<Moment>)
    requires history != []
    ensures Fits(w, Ring(w, history), TimeOf(history[|history| - 1]))
  {
    var older, m := history[..|history| - 1], history[|history| - 1];
    EvictIsLongest(w, Ring(w, older) + Added(m), TimeOf(m));
  }

  /** And conversely: an end that fits although nothing like it fitted before is not kept. */
  lemma ContinuesIfLongest(w: Window, older: seq<Moment>, m: Moment)
    requires RingLongest(w, older + [m])
    ensures Continues(w, older + [m])
  {
    hide IsSuffix, Evict, Ring, Fits, Rows;
    var kept, history := Ring(w, older), older + [m];
    assert history[..|older|] == older && history[|older|] == m;
    Appended(w, older, m);
    RingIsEnd(w, older);
    EvictIsLongest(w, kept + Added(m), TimeOf(m));
    forall front | IsSuffix(front, Rows(older)) && Fits(w, front + Added(m), TimeOf(m))
      ensures HadRoom(w, older, front)
    {
      SuffixAdd(front, Rows(older), Added(m));
      SuffixTrans(front + Added(m), Ring(w, history), kept + Added(m));
      SuffixAdd(front, kept, Added(m));
      if older != [] {
        RingFits(w, older);
      }
    }
  }

  /** The exact condition, for every history: the ring is at each moment the longest end of the
      recorded rows that fits, if and only if at each moment whatever fits had room before. */
  lemma {:induction false} RingExactly(w: Window, history: seq<Moment>)
    ensures (forall n | 0 <= n <= |history| :: RingLongest(w, history[..n])) <==>
            (forall n | 0 <= n <= |history| :: Continues(w, history[..n]))
    decreases |history|
  {
    hide RingLongest, Continues;
    NothingRecorded(w);
    assert history[..|history|] == history;
    if history == [] {
      assert history[..0] == [];
    } else {
      var older := history[..|history| - 1];
      RingExactly(w, older);
      assert history == older + [history[|history| - 1]];
      assert forall n | 0 <= n <= |older| :: history[..n] == older[..n];
      assert older[..|older|] == older;
      if RingLongest(w, older) && Continues(w, history) {
        LongestStep(w, older, history[|history| - 1]);
      }
      if RingLongest(w, history) {
        ContinuesIfLongest(w, older, history[|history| - 1]);
      }
    }
  }

  lemma NothingRecorded(w: Window)
    ensures RingLongest(w, []) && Continues(w, [])
  {}

  /** It fails only where the time has run backwards. */
  lemma StopsOnlyBackwards(w: Window, older: seq<Moment>, m: Moment)
    requires older != [] && !Continues(w, older + [m])
    ensures TimeOf(m) < TimeOf(older[|older| - 1])
  {
    var history := older + [m];
    assert history[..|older|] == older && history[|older|] == m;
    var front :| IsSuffix(front, Rows(older)) && Fits(w, front + Added(m), TimeOf(m)) && !HadRoom(w, older, front);
    if m.Recorded? {
      SizeAppend(front, m.row);
    } else {
      assert front + Added(m) == front;
    }
    assert IsSuffix(front, front);
    assert !Fits(w, front, TimeOf(older[|older| - 1]));
    assert front != [] && (front + Added(m))[0] == front[0];
  }

  /** Moments whose times do not run backwards. */
  predicate InOrder(history: seq<Moment>) {
    forall i, j | 0 <= i < j < |history| :: TimeOf(history[i]) <= TimeOf(history[j])
  }

  /** While times do not run backwards the ring is the longest end of all recorded rows that fits:
      nothing that could still be kept has ever been dropped. */
  lemma RingIsLongest(w: Window, history: seq<Moment>)
    requires history != [] && InOrder(history)
    ensures Longest(w, Ring(w, history), Rows(history), TimeOf(history[|history| - 1]))
  {
    hide Longest, Continues, Ring, Rows;
    forall n | 0 <= n <= |history|
      ensures Continues(w, history[..n])
    {
      if n < 2 {
        FirstContinues(w, history[..n]);
      } else if !Continues(w, history[..n]) {
        assert history[..n] == history[..n - 1] + [history[n - 1]];
        StopsOnlyBackwards(w, history[..n - 1], history[n - 1]);
      }
    }
    RingExactly(w, history);
    assert history[..|history|] == history;
    assert RingLongest(w, history[..|history|]);
  }

  lemma FirstContinues(w: Window, history: seq<Moment>)
    requires |history| < 2
    ensures Continues(w, history)
  {}

  /** Two threads that queue rows out of order can make the ring lose a row that still fits. */
  lemma BackwardsLosesRows()
    ensures var w := Window(1000, 1.0);
            var h := [Recorded("", Row("", "", 0.0, None, 1)), Recorded("", Row("", "", 2.0, None, 1)),
                      Recorded("", Row("", "", 1.0, None, 1))];
            !Longest(w, Ring(w, h), Rows(h), 1.0)
  {
    var w := Window(1000, 1.0);
    var a, b, c := Row("", "", 0.0, None, 1), Row("", "", 2.0, None, 1), Row("", "", 1.0, None, 1);
    var one := [] + [Recorded("", a)];
    var two := one + [Recorded("", b)];
    var h := two + [Recorded("", c)];
    assert h == [Recorded("", a), Recorded("", b), Recorded("", c)];
    assert [] + [a] == [a] && [a] + [b] == [a, b] && [a, b] + [c] == [a, b, c] && [a, b][1..] == [b] && [b] + [c] == [b, c];
    SizeAppend([], a);
    SizeAppend([], b);
    SizeAppend([b], c);
    SizeAppend([a], b);
    SizeAppend([a, b], c);
    Appended(w, [], Recorded("", a));
    assert Ring(w, one) == [a] && Rows(one) == [a];
    Appended(w, one, Recorded("", b));
    assert [] + [b] == [b];
    assert !Fits(w, [a, b], 2.0) && Fits(w, [b], 2.0);
    assert Ring(w, two) == [b] && Rows(two) == [a, b];
    Appended(w, two, Recorded("", c));
    assert Fits(w, [b, c], 1.0);
    assert Ring(w, h) == [b, c] && Rows(h) == [a, b, c];
    assert Fits(w, [a, b, c], 1.0) && IsSuffix([a, b, c], [a, b, c]);
  }

  // ---------------------------------------------------------------- incident files

  /** A row as it is written to a file, under a header. */
  datatype Line = Line(header: string, row: Row)

  /** The header each stream has at present. */
  function Headers(history: seq<Moment>): map<string, string> {
    if history == [] then map[]
    else
      var older, m := Headers(history[..|history| - 1]), history[|history| - 1];
      if m.Recorded? then older[m.row.stream := m.header] else older
  }

  function Titled(headers: map<string, string>, rows: seq<Row>): (r: seq<Line>)
    ensures |r| == |rows| && forall i | 0 <= i < |r| :: r[i].row == rows[i]
  {
    seq(|rows|, i requires 0 <= i < |rows| =>
      Line(if rows[i].stream in headers then headers[rows[i].stream] else "", rows[i]))
  }

  function Lines(history: seq<Moment>): seq<Line> {
    if history == [] then []
    else
      var older, m := Lines(history[..|history| - 1]), history[|history| - 1];
      if m.Recorded? then older + [Line(m.header, m.row)] else older
  }

  /** A capture that has begun at the given moment holds the ring of that moment and every row
      recorded since. */
  function Incident(w: Window, history: seq<Moment>, begun: nat): seq<Line>
    requires begun <= |history|
  {
    Titled(Headers(history[..begun]), Ring(w, history[..begun])) + Lines(history[begun..])
  }

  function Bare(lines: seq<Line>): (r: seq<Row>)
    ensures |r| == |lines| && forall i | 0 <= i < |r| :: r[i] == lines[i].row
  {
    seq(|lines|, i requires 0 <= i < |lines| => lines[i].row)
  }

  lemma IncidentGrows(w: Window, history: seq<Moment>, begun: nat, m: Moment)
    requires begun <= |history|
    ensures Incident(w, history + [m], begun) ==
            Incident(w, history, begun) + if m.Recorded? then [Line(m.header, m.row)] else []
  {
    var all := history + [m];
    assert all[..begun] == history[..begun] && all[begun..] == history[begun..] + [m];
    assert all[begun..][..|all[begun..]| - 1] == history[begun..];
  }

  lemma IncidentBegins(w: Window, history: seq<Moment>)
    ensures Incident(w, history, |history|) == Titled(Headers(history), Ring(w, history))
  {
    assert history[..|history|] == history && history[|history|..] == [];
  }

  lemma HeadersAppend(older: seq<Moment>, m: Moment)
    ensures Headers(older + [m]) == if m.Recorded? then Headers(older)[m.row.stream := m.header] else Headers(older)
  {
    assert (older + [m])[..|older|] == older;
  }

  /** A trigger only evicts. */
  lemma TriggerAppended(w: Window, history: seq<Moment>, now: real)
    ensures var all := history + [Triggered(now)];
            && Ring(w, all) == Evict(w, Ring(w, history), now) && Rows(all) == Rows(history)
            && Headers(all) == Headers(history)
  {
    Appended(w, history, Triggered(now));
    HeadersAppend(history, Triggered(now));
    assert Ring(w, history) + [] == Ring(w, history) && Rows(history) + [] == Rows(history);
  }

  /** An incident file is an unbroken stretch of the record, up to the present, and holds all that
      the ring held when it began. */
  lemma {:induction false} IncidentIsUnbroken(w: Window, history: seq<Moment>, begun: nat)
    requires begun <= |history|
    ensures var rows := Bare(Incident(w, history, begun));
            IsSuffix(rows, Rows(history)) && Ring(w, history[..begun]) <= rows
    decreases |history|
  {
    if begun == |history| {
      assert history[..begun] == history && history[begun..] == [];
      assert Bare(Incident(w, history, begun)) == Ring(w, history);
      RingIsEnd(w, history);
    } else {
      var older, m := history[..|history| - 1], history[|history| - 1];
      assert history == older + [m] && history[..begun] == older[..begun];
      IncidentIsUnbroken(w, older, begun);
      IncidentGrows(w, older, begun, m);
      assert Bare(Incident(w, history, begun)) == Bare(Incident(w, older, begun)) + Added(m);
      SuffixAdd(Bare(Incident(w, older, begun)), Rows(older), Added(m));
    }
  }

  /** So with times in order it lacks no row of the window before the trigger that the memory had
      room for. */
  lemma IncidentCoversWindow(w: Window, history: seq<Moment>, begun: nat, tail: seq<Row>)
    requires 0 < begun <= |history| && InOrder(history[..begun])
    requires IsSuffix(tail, Rows(history[..begun])) && Fits(w, tail, TimeOf(history[begun - 1]))
    ensures IsSuffix(tail, Bare(Incident(w, history, begun))[..|Ring(w, history[..begun])|])
  {
    hide Ring, Rows, Incident, Fits, InOrder;
    IncidentIsUnbroken(w, history, begun);
    RingIsLongest(w, history[..begun]);
  }

  // ---------------------------------------------------------------- the continuous record

  /** A row goes to the continuous record unless its sample comes less than a period after the
      stream's last one there; the samples of one frame stay together. */
  predicate Due(period: real, last: real, sample: Option<real>) {
    sample.Some? && (sample.value == last || sample.value < last || sample.value - last >= period)
  }

  /** Where the stream's clock stands; it starts at zero. */
  function LastTime(period: real, rows: seq<Row>, stream: string): real {
    if rows == [] then 0.0
    else
      var before, r := LastTime(period, rows[..|rows| - 1], stream), rows[|rows| - 1];
      if r.stream == stream && Due(period, before, r.sample) then r.sample.value else before
  }

  function Summary(period: real, rows: seq<Row>): seq<Row> {
    if rows == [] then []
    else
      var older, r := rows[..|rows| - 1], rows[|rows| - 1];
      Summary(period, older) + if Due(period, LastTime(period, older, r.stream), r.sample) then [r] else []
  }

  function OfStream(rows: seq<Row>, stream: string): seq<Row> {
    if rows == [] then []
    else
      var r := rows[|rows| - 1];
      OfStream(rows[..|rows| - 1], stream) + if r.stream == stream then [r] else []
  }

  lemma OfStreamAppend(rows: seq<Row>, r: Row, stream: string)
    ensures OfStream(rows + [r], stream) == OfStream(rows, stream) + if r.stream == stream then [r] else []
  {
    assert (rows + [r])[..|rows|] == rows;
  }

  /** The sample of the last row, or the start of the clock. */
  function Anchor(written: seq<Row>): real {
    if written == [] || written[|written| - 1].sample.None? then 0.0 else written[|written| - 1].sample.value
  }

  /** Successive rows of a stream are of one frame, a period apart, or of a clock that went back. */
  ghost predicate Spaced(period: real, written: seq<Row>) {
    && (forall i | 0 <= i < |written| :: written[i].sample.Some?)
    && (forall i | 0 < i < |written| :: !(0.0 < written[i].sample.value - written[i - 1].sample.value < period))
  }

  lemma SpacedAppend(period: real, written: seq<Row>, r: Row)
    requires Spaced(period, written) && Due(period, Anchor(written), r.sample)
    ensures Spaced(period, written + [r]) && Anchor(written + [r]) == r.sample.value
  {
    var all := written + [r];
    assert forall i | 0 <= i < |written| :: all[i] == written[i];
    assert all[|written|] == r;
  }

  /** Every stream is thinned to the period, for all rows recorded. */
  lemma {:induction false} SummaryIsSpaced(period: real, rows: seq<Row>, stream: string)
    ensures var written := OfStream(Summary(period, rows), stream);
            Spaced(period, written) && LastTime(period, rows, stream) == Anchor(written)
    decreases |rows|
  {
    hide Spaced, OfStream, Anchor, Due;
    if rows == [] {
      NothingWritten(period, stream);
    } else {
      var older, r := rows[..|rows| - 1], rows[|rows| - 1];
      assert rows == older + [r];
      SummaryIsSpaced(period, older, stream);
      RowsAppend(period, older, r);
      hide Summary, LastTime;
      var written := OfStream(Summary(period, older), stream);
      OfStreamAppend(Summary(period, older), r, stream);
      assert Summary(period, older) + [] == Summary(period, older);
      if r.stream == stream && Due(period, LastTime(period, older, stream), r.sample) {
        SpacedAppend(period, written, r);
      } else {
        assert written + [] == written;
      }
    }
  }

  lemma NothingWritten(period: real, stream: string)
    ensures var written := OfStream(Summary(period, []), stream);
            Spaced(period, written) && LastTime(period, [], stream) == Anchor(written)
  {}

  /** And nothing more is left out: a row is missing exactly if its sample is not a number, or
      comes less than a period after the last one of its stream in the record. */
  lemma MissingExactly(period: real, rows: seq<Row>, r: Row)
    ensures var last := Anchor(OfStream(Summary(period, rows), r.stream));
            Summary(period, rows + [r]) == Summary(period, rows) +
              if r.sample.None? || 0.0 < r.sample.value - last < period then [] else [r]
  {
    SummaryIsSpaced(period, rows, r.stream);
    assert (rows + [r])[..|rows|] == rows;
  }

  // ---------------------------------------------------------------- the writer thread

  class Recorder {
    const window: Window
    const period: real
    const cooldown: real
    var ring: seq<Row>
    var bytes: int
    var headers: map<string, string>
    var times: map<string, real>
    var capture: string
    var seen: string
    var started: real
    var deadline: real
    /** What the incident file and the continuous record have been given. */
    var captured: seq<Line>
    var summary: seq<Line>
    ghost var history: seq<Moment>
    ghost var begun: nat

    constructor (window: Window, period: real, cooldown: real)
      requires period > 0.0
      ensures this.window == window && this.period == period && this.cooldown == cooldown
      ensures Valid() && history == [] && capture == "" && seen == "" && started == -3600.0
    {
      this.window, this.period, this.cooldown := window, period, cooldown;
      ring, bytes, headers, times, history := [], 0, map[], map[], [];
      capture, seen, started, deadline, captured, summary, begun := "", "", -3600.0, 0.0, [], [], 0;
    }

    ghost predicate Valid()
      reads this
    {
      && bytes == Size(ring) && ring == Ring(window, history) && headers == Headers(history)
      && Thinned(period, times, summary, Rows(history))
      && begun <= |history| && (capture != "" ==> captured == Incident(window, history, begun))
    }

    /** Drop the oldest rows until the rest fits. */
    method Trim(now: real)
      requires bytes == Size(ring)
      modifies `ring, `bytes
      ensures ring == Evict(window, old(ring), now) && bytes == Size(ring)
    {
      while ring != [] && (bytes > window.memory || now - ring[0].time > window.seconds)
        modifies `ring, `bytes
        invariant bytes == Size(ring)
        invariant Evict(window, ring, now) == Evict(window, old(ring), now)
        decreases |ring|
      {
        bytes := bytes - ring[0].size;
        ring := ring[1..];
      }
    }

    method RecordTelemetry(header: string, row: Row)
      requires Valid()
      modifies this
      ensures Valid() && history == old(history) + [Recorded(header, row)]
      ensures capture == old(capture) && seen == old(seen) && started == old(started) && deadline == old(deadline)
      ensures begun == old(begun)
      ensures captured == old(captured) + if capture != "" then [Line(header, row)] else []
    {
      hide Ring, Rows, Headers, Incident, Evict, Size, Thinned;
      Appended(window, history, Recorded(header, row));
      HeadersAppend(history, Recorded(header, row));
      IncidentGrows(window, history, begun, Recorded(header, row));
      SizeAppend(ring, row);
      headers := headers[row.stream := header];
      bytes := bytes + row.size;
      ring := ring + [row];
      Trim(row.time);
      if capture != "" {
        captured := captured + [Line(header, row)];
      }
      Thin(header, row, Rows(history));
      history := history + [Recorded(header, row)];
    }

    /** Rows of one sampled frame, say of several buses, stay together. */
    method Thin(header: string, row: Row, ghost rows: seq<Row>)
      requires Thinned(period, times, summary, rows)
      modifies `times, `summary
      ensures Thinned(period, times, summary, rows + [row])
    {
      hide LastTime, Summary;
      var last := TimeFor(times, row.stream);
      RowsAppend(period, rows, row);
      if row.sample.Some? && (row.sample.value == last || row.sample.value < last || row.sample.value - last >= period) {
        times := times[row.stream := row.sample.value];
        summary := summary + [Line(header, row)];
        assert Bare(summary) == Bare(old(summary)) + [row];
      }
    }

    /** A new incident is captured unless one is already, or the last began too recently, or there
        is no storage; the evidence before it is written at once. */
    method StartCapture(id: string, now: real, post: real, allowed: bool, created: bool)
      requires Valid()
      modifies this
      ensures Valid() && seen == id && summary == old(summary)
      ensures var opens := id != old(seen) && old(capture) == "" && now - old(started) >= cooldown && allowed;
              if opens then
                && history == old(history) + [Triggered(now)] && started == now
                && capture == (if created then "incident_" + id else "")
                && deadline == now + Clamp(post, 0.0, 120.0)
                && (if created then begun == |history| else begun == old(begun) && captured == old(captured))
              else
                && history == old(history) && started == old(started) && capture == old(capture) && begun == old(begun)
                && captured == old(captured) && deadline == old(deadline)
    {
      hide Ring, Rows, Headers, Evict, Size, Thinned, Incident;
      if id == seen {
        return;
      }
      seen := id;
      if capture != "" || now - started < cooldown || !allowed {
        return;
      }
      TriggerAppended(window, history, now);
      Trim(now);
      history := history + [Triggered(now)];
      started, deadline := now, now + Clamp(post, 0.0, 120.0);
      if created {
        capture, begun := "incident_" + id, |history|;
        captured := Title();
        IncidentBegins(window, history);
      }
    }

    /** The rows of the ring under the present headers of their streams. */
    method Title() returns (lines: seq<Line>)
      ensures lines == Titled(headers, ring)
    {
      lines := [];
      for i := 0 to |ring|
        invariant |lines| == i && forall k | 0 <= k < i :: lines[k] == Titled(headers, ring)[k]
      {
        lines := lines + [Line(if ring[i].stream in headers then headers[ring[i].stream] else "", ring[i])];
      }
    }

    method Maintain(now: real)
      requires Valid()
      modifies `capture
      ensures Valid() && capture == if old(capture) != "" && now >= deadline then "" else old(capture)
    {
      if capture != "" && now >= deadline {
        capture := "";
      }
    }
  }

  /** The clocks of the streams, and the continuous record, as the rows have left them. */
  ghost predicate Thinned(period: real, times: map<string, real>, summary: seq<Line>, rows: seq<Row>) {
    && (forall stream :: TimeFor(times, stream) == LastTime(period, rows, stream))
    && Bare(summary) == Summary(period, rows)
  }

  function TimeFor(times: map<string, real>, stream: string): real { if stream in times then times[stream] else 0.0 }

  lemma RowsAppend(period: real, rows: seq<Row>, r: Row)
    ensures var due := Due(period, LastTime(period, rows, r.stream), r.sample);
            && Summary(period, rows + [r]) == Summary(period, rows) + (if due then [r] else [])
            && forall stream :: LastTime(period, rows + [r], stream) ==
                 if r.stream == stream && due then r.sample.value else LastTime(period, rows, stream)
  {
    assert (rows + [r])[..|rows|] == rows;
  }
}
