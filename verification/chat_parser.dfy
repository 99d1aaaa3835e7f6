/**
 * The message assembler (class `ChatParser` in yawab.py): a scanner over
 * trimmed, non-blank lines that opens a message at each timestamped header
 * line, appends every other line to the open message, and hands a message
 * over when the next header arrives or the input ends.
 *
 * The pure functions `Step`, `Run` and `Parsed` specify `process_line` and
 * `parse` on values; the class methods are proved against them.
 */
module Parser {
  import opened Wrappers
  import opened Strings
  import opened Lines
  import opened Messages

  /**
   * The header regex `\d{2}.\d{2}.\d{2},\s\d{2}:\d{2}\s-\s` matches at `i`.
   * Its dots are unescaped, so they match any character but a newline.
   */
  predicate TimestampAt(s: string, i: nat)
  {
    i + 18 <= |s|
    && IsDigit(s[i]) && IsDigit(s[i + 1]) && s[i + 2] != '\n'
    && IsDigit(s[i + 3]) && IsDigit(s[i + 4]) && s[i + 5] != '\n'
    && IsDigit(s[i + 6]) && IsDigit(s[i + 7]) && s[i + 8] == ','
    && IsSpace(s[i + 9]) && IsDigit(s[i + 10]) && IsDigit(s[i + 11]) && s[i + 12] == ':'
    && IsDigit(s[i + 13]) && IsDigit(s[i + 14]) && IsSpace(s[i + 15])
    && s[i + 16] == '-' && IsSpace(s[i + 17])
  }

  /** The header regex matches at `i` or later: `re.search` scanning from `i`. */
  predicate TimestampFrom(s: string, i: nat)
    decreases |s| - i
  {
    if i >= |s| then false
    else TimestampAt(s, i) || TimestampFrom(s, i + 1)
  }

  /** `re.search(_timestampRegex, line)`: the line starts a new message. */
  predicate IsHeader(line: string)
  {
    TimestampFrom(line, 0)
  }

  lemma {:induction false} TimestampFromSpec(s: string, i: nat)
    ensures TimestampFrom(s, i) <==> exists j: nat :: i <= j && TimestampAt(s, j)
    decreases |s| - i
  {
    if i < |s| {
      TimestampFromSpec(s, i + 1);
      if !TimestampAt(s, i) && TimestampFrom(s, i + 1) {
        var j: nat :| i + 1 <= j && TimestampAt(s, j);
      }
      if exists j: nat :: i <= j && TimestampAt(s, j) {
        var j: nat :| i <= j && TimestampAt(s, j);
        if j != i {
          assert i + 1 <= j;
        }
      }
    }
  }

  /** A line is a header exactly when the timestamp regex matches at some position. */
  lemma IsHeaderSpec(line: string)
    ensures IsHeader(line) <==> exists j: nat :: TimestampAt(line, j)
  {
    TimestampFromSpec(line, 0);
  }

  /** The fields cut out of a header line, and the text that becomes its first line. */
  datatype Header = Header(date: string, time: string, sender: string, text: string)

  /**
   * The two exceptions the assembler can raise: the ValueError of unpacking a
   * `split` that found no delimiter, and the AttributeError of appending to a
   * message that does not exist.
   */
  datatype ParseError = MissingDelimiter(delimiter: char) | NoOpenMessage

  /** `c`, `m` and `k` are the first `,`, the first `-` after it and the first `:` after that. */
  ghost predicate DelimitedAt(line: string, c: nat, m: nat, k: nat)
  {
    c < m < k < |line| && line[c] == ',' && line[m] == '-' && line[k] == ':'
    && Lacks(line, ',', 0, c) && Lacks(line, '-', c + 1, m) && Lacks(line, ':', m + 1, k)
  }

  /** `process_line`, yawab.py lines 214-226: split off date, time and sender, then left-trim the rest. */
  function SplitHeader(line: string): (r: Result<Header, ParseError>)
    ensures r.Failure? ==> r.error.MissingDelimiter?
    ensures r == Failure(MissingDelimiter(',')) <==> Lacks(line, ',', 0, |line|)
  {
    match SplitOnce(line, ',')
    case None => Failure(MissingDelimiter(','))
    case Some((date, rest)) =>
      match SplitOnce(rest, '-')
      case None => Failure(MissingDelimiter('-'))
      case Some((time, rest')) =>
        match SplitOnce(rest', ':')
        case None => Failure(MissingDelimiter(':'))
        case Some((sender, text)) => Success(Header(Strip(date), Strip(time), Strip(sender), LStrip(text)))
  }

  lemma DelimitedAtSplits(line: string, c: nat, m: nat, k: nat)
    requires DelimitedAt(line, c, m, k)
    ensures SplitOnce(line, ',') == Some((line[..c], line[c + 1..]))
    ensures SplitOnce(line[c + 1..], '-') == Some((line[c + 1..m], line[m + 1..]))
    ensures SplitOnce(line[m + 1..], ':') == Some((line[m + 1..k], line[k + 1..]))
  {
    SplitOnceAt(line, ',', c);
    CutAtLater(line, '-', c, m);
    CutAtLater(line, ':', m, k);
  }

  /** The first `sep` after position `p` of `s` is at `q`: splitting `s[p + 1..]` cuts there. */
  lemma CutAtLater(s: string, sep: char, p: nat, q: nat)
    requires p < q < |s| && s[q] == sep && Lacks(s, sep, p + 1, q)
    ensures SplitOnce(s[p + 1..], sep) == Some((s[p + 1..q], s[q + 1..]))
  {
    var rest := s[p + 1..];
    assert Lacks(rest, sep, 0, q - p - 1) by {
      forall i | 0 <= i < q - p - 1 ensures rest[i] != sep {
        assert rest[i] == s[p + 1 + i];
      }
    }
    SplitOnceAt(rest, sep, q - p - 1);
    assert rest[..q - p - 1] == s[p + 1..q];
    assert rest[q - p..] == s[q + 1..];
  }

  /** Splitting `s[p + 1..]` at `sep` found the first `sep` after position `p` of `s`. */
  lemma CutFoundLater(s: string, sep: char, p: nat)
    requires p < |s| && SplitOnce(s[p + 1..], sep).Some?
    ensures var q := p + 1 + |SplitOnce(s[p + 1..], sep).value.0|;
      q < |s| && s[q] == sep && Lacks(s, sep, p + 1, q) && SplitOnce(s[p + 1..], sep).value.1 == s[q + 1..]
  {
    var rest := s[p + 1..];
    var q := p + 1 + |SplitOnce(rest, sep).value.0|;
    forall i | p + 1 <= i < q ensures s[i] != sep {
      assert s[i] == rest[i - p - 1];
    }
    assert rest[q - p..] == s[q + 1..];
  }

  /** Splitting what follows the `,` at `c` found a first `-` and then a first `:`. */
  lemma SplitTailFoundDelimiters(line: string, c: nat)
    requires c < |line|
    requires SplitOnce(line[c + 1..], '-').Some?
    requires SplitOnce(SplitOnce(line[c + 1..], '-').value.1, ':').Some?
    ensures exists m: nat, k: nat :: c < m < k < |line| && line[m] == '-' && line[k] == ':'
                                     && Lacks(line, '-', c + 1, m) && Lacks(line, ':', m + 1, k)
  {
    CutFoundLater(line, '-', c);
    var m := c + 1 + |SplitOnce(line[c + 1..], '-').value.0|;
    CutFoundLater(line, ':', m);
    var k := m + 1 + |SplitOnce(line[m + 1..], ':').value.0|;
    assert line[m] == '-' && line[k] == ':';
  }

  /** A successful split found a first `,`, a first `-` after it and a first `:` after that. */
  lemma SplitHeaderFoundDelimiters(line: string)
    requires SplitOnce(line, ',').Some?
    requires SplitOnce(SplitOnce(line, ',').value.1, '-').Some?
    requires SplitOnce(SplitOnce(SplitOnce(line, ',').value.1, '-').value.1, ':').Some?
    ensures exists c: nat, m: nat, k: nat :: DelimitedAt(line, c, m, k)
  {
    var c := |SplitOnce(line, ',').value.0|;
    assert SplitOnce(line, ',').value.1 == line[c + 1..];
    SplitTailFoundDelimiters(line, c);
    var m: nat, k: nat :| c < m < k < |line| && line[m] == '-' && line[k] == ':'
                          && Lacks(line, '-', c + 1, m) && Lacks(line, ':', m + 1, k);
    assert DelimitedAt(line, c, m, k);
  }

  /**
   * The split succeeds exactly when the line has a `,`, then a `-`, then a
   * `:`, and then cuts at the first of each, trimming the pieces.
   */
  lemma SplitHeaderSpec(line: string)
    ensures SplitHeader(line).Success? <==> exists c: nat, m: nat, k: nat :: DelimitedAt(line, c, m, k)
    ensures forall c: nat, m: nat, k: nat :: DelimitedAt(line, c, m, k) ==>
              SplitHeader(line) == Success(Header(Strip(line[..c]), Strip(line[c + 1..m]),
                                                  Strip(line[m + 1..k]), LStrip(line[k + 1..])))
  {
    forall c: nat, m: nat, k: nat | DelimitedAt(line, c, m, k)
      ensures SplitHeader(line) == Success(Header(Strip(line[..c]), Strip(line[c + 1..m]),
                                                  Strip(line[m + 1..k]), LStrip(line[k + 1..])))
    {
      DelimitedAtSplits(line, c, m, k);
    }
    if SplitHeader(line).Success? {
      SplitHeaderFoundDelimiters(line);
    }
  }

  /**
   * On a header line the `,` and `-` splits cannot fail: the timestamp holds
   * a `,` and, after any earlier `,`, a `-`. Only the `:` split can fail.
   */
  lemma HeaderSplitOnlyFailsOnColon(line: string)
    requires IsHeader(line)
    ensures SplitHeader(line).Success? || SplitHeader(line) == Failure(MissingDelimiter(':'))
  {
    IsHeaderSpec(line);
    var j: nat :| TimestampAt(line, j);
    assert line[j + 8] == ',';
    var c := |SplitOnce(line, ',').value.0|;
    assert c <= j + 8;
    var rest := SplitOnce(line, ',').value.1;
    assert rest == line[c + 1..];
    assert rest[j + 15 - c] == line[j + 16] == '-';
  }

  /** The state of a `ChatParser`: the open message, if any, and the shared counter's value. */
  datatype State = State(open: Option<MessageRecord>, next: nat)

  /** An open message has at least one line and an index the counter has already handed out. */
  ghost predicate StateOk(st: State)
  {
    st.open.Some? ==> |st.open.value.lines| >= 1 && st.open.value.index < st.next
  }

  /** The open message, if any, holds the last index the counter handed out. */
  ghost predicate OpenIsLatest(st: State)
  {
    st.open.Some? ==> st.open.value.index + 1 == st.next
  }

  datatype StepResult = StepResult(state: State, emitted: Option<MessageRecord>, error: Option<ParseError>)

  /** `process_line` on one trimmed, non-blank line. */
  function Step(st: State, line: string, cfg: Placeholders): (r: StepResult)
    ensures StateOk(st) ==> StateOk(r.state)
    ensures OpenIsLatest(st) ==> OpenIsLatest(r.state)
    ensures r.error.Some? ==> r.state.open.None?
    ensures r.emitted == (if IsHeader(line) then st.open else None)
  {
    if IsHeader(line) then
      match SplitHeader(line)
      case Failure(e) => StepResult(State(None, st.next), st.open, Some(e))
      case Success(h) =>
        var m := MessageRecord(st.next, h.date, h.time, h.sender, [ParseLineContent(h.text, cfg)]);
        StepResult(State(Some(m), st.next + 1), st.open, None)
    else
      match st.open
      case None => StepResult(st, None, Some(NoOpenMessage))
      case Some(m) =>
        StepResult(State(Some(m.(lines := m.lines + [ParseLineContent(line, cfg)])), st.next), None, None)
  }

  /**
   * A header line that splits hands over the message open before it and
   * opens a new one with the counter's value, the header's fields and its
   * text, classified, as the first line.
   */
  lemma StepHeader(st: State, line: string, h: Header, cfg: Placeholders)
    requires IsHeader(line) && SplitHeader(line) == Success(h)
    ensures Step(st, line, cfg) ==
              StepResult(State(Some(MessageRecord(st.next, h.date, h.time, h.sender, [ParseLineContent(h.text, cfg)])), st.next + 1),
                         st.open, None)
  {
  }

  /** The line list of `parse`, after `strip()`, that the loop skips. */
  predicate IsBlank(line: string)
  {
    line == "" || line == "\n" || line == "\r\n" || line == "\r"
  }

  datatype RunResult = RunResult(state: State, emitted: seq<MessageRecord>, error: Option<ParseError>)

  function OptionToSeq<T>(o: Option<T>): seq<T>
  {
    match o
    case None => []
    case Some(x) => [x]
  }

  /** One raw line of the `parse` loop: `strip()`, then blank lines are skipped and the rest go to `process_line`. */
  function Feed(st: State, rawLine: string, cfg: Placeholders): (r: StepResult)
    ensures StateOk(st) ==> StateOk(r.state)
    ensures OpenIsLatest(st) ==> OpenIsLatest(r.state)
    ensures r.error.Some? ==> r.state.open.None?
    ensures IsBlank(Strip(rawLine)) ==> r == StepResult(st, None, None)
  {
    var line := Strip(rawLine);
    if IsBlank(line) then StepResult(st, None, None) else Step(st, line, cfg)
  }

  /** The loop of `parse` with a given per-line step, without the final flush; it stops at the first error. */
  function Loop(feed: (State, string) -> StepResult, st: State, lines: seq<string>): (r: RunResult)
    ensures |r.emitted| <= |lines|
    decreases |lines|
  {
    if lines == [] then RunResult(st, [], None)
    else
      var prev := Loop(feed, st, lines[..|lines| - 1]);
      if prev.error.Some? then prev
      else
        var s := feed(prev.state, lines[|lines| - 1]);
        RunResult(s.state, prev.emitted + OptionToSeq(s.emitted), s.error)
  }

  /** A step that keeps `StateOk` and closes the message on error makes a loop that does too. */
  lemma {:induction false} LoopKeepsStateOk(feed: (State, string) -> StepResult, st: State, lines: seq<string>)
    requires forall s: State, raw: string :: StateOk(s) ==> StateOk(feed(s, raw).state)
    requires forall s: State, raw: string :: feed(s, raw).error.Some? ==> feed(s, raw).state.open.None?
    ensures StateOk(st) ==> StateOk(Loop(feed, st, lines).state)
    ensures Loop(feed, st, lines).error.Some? ==> Loop(feed, st, lines).state.open.None?
    decreases |lines|
  {
    if lines != [] {
      LoopKeepsStateOk(feed, st, lines[..|lines| - 1]);
    }
  }

  /** `Feed` with the placeholders fixed: the step the parser's loop uses. */
  function FeedOf(cfg: Placeholders): (State, string) -> StepResult
  {
    (s: State, raw: string) => Feed(s, raw, cfg)
  }

  /** The loop of `parse` over raw lines. */
  function Run(st: State, lines: seq<string>, cfg: Placeholders): (r: RunResult)
    ensures StateOk(st) ==> StateOk(r.state)
    ensures r.error.Some? ==> r.state.open.None?
  {
    LoopKeepsStateOk(FeedOf(cfg), st, lines);
    Loop(FeedOf(cfg), st, lines)
  }

  /** `parse`: the loop, then the open message is handed over once and cleared. */
  function Parsed(st: State, lines: seq<string>, cfg: Placeholders): (r: RunResult)
    ensures r.state.open.None?
    ensures r.error == Run(st, lines, cfg).error
    ensures Run(st, lines, cfg).emitted <= r.emitted
  {
    var run := Run(st, lines, cfg);
    if run.error.Some? then run
    else match run.state.open
      case None => run
      case Some(m) => RunResult(State(None, run.state.next), run.emitted + [m], None)
  }

  /** One more raw line: a run that reached `before` without error goes on with `Feed`. */
  lemma RunOneMore(st: State, lines: seq<string>, i: nat, cfg: Placeholders, before: State, done: seq<MessageRecord>)
    requires i < |lines|
    requires Run(st, lines[..i], cfg) == RunResult(before, done, None)
    ensures var f := Feed(before, lines[i], cfg);
            Run(st, lines[..i + 1], cfg) == RunResult(f.state, done + OptionToSeq(f.emitted), f.error)
  {
    assert lines[..i + 1][..i] == lines[..i];
  }

  lemma {:induction false} RunStopsAtError(st: State, lines: seq<string>, i: nat, cfg: Placeholders)
    requires i <= |lines|
    requires Run(st, lines[..i], cfg).error.Some?
    ensures Run(st, lines, cfg) == Run(st, lines[..i], cfg)
    decreases |lines| - i
  {
    if i < |lines| {
      assert lines[..i + 1][..i] == lines[..i];
      RunStopsAtError(st, lines, i + 1, cfg);
    } else {
      assert lines[..i] == lines;
    }
  }

  class ChatParser {
    const cfg: Placeholders
    const counter: MessageCounter
    var message: Message?

    ghost function Abs(): State
      reads this, message, counter
    {
      State(if message == null then None else Some(message.Record()), counter.next)
    }

    /** The open message has a line and holds the last index the shared counter handed out. */
    ghost predicate Valid()
      reads this, message, counter
    {
      StateOk(Abs()) && OpenIsLatest(Abs())
    }

    constructor (counter: MessageCounter, cfg: Placeholders)
      ensures this.counter == counter && this.cfg == cfg && message == null
      ensures Valid()
    {
      this.counter := counter;
      this.cfg := cfg;
      message := null;
    }

    /**
     * `process_line`: a header line hands over the open message, then opens a
     * new one (unless the split fails); any other line is appended.
     */
    method ProcessLine(line: string) returns (emitted: Message?, error: Option<ParseError>)
      requires Valid()
      modifies this, counter, message
      ensures Valid()
      ensures Abs() == Step(old(Abs()), line, cfg).state
      ensures error == Step(old(Abs()), line, cfg).error
      ensures emitted == (if IsHeader(line) then old(message) else null)
      ensures emitted != null ==> Some(emitted.Record()) == Step(old(Abs()), line, cfg).emitted
      ensures message == null || message == old(message) || fresh(message)
      ensures emitted != null ==> emitted != message
    {
      emitted := null;
      error := None;
      if IsHeader(line) {
        if message != null {
          emitted := message;
          message := null;
        }
        match SplitHeader(line)
        case Failure(e) =>
          error := Some(e);
        case Success(h) =>
          var first := ParseLineContent(h.text, cfg);
          StepHeader(old(Abs()), line, h, cfg);
          message := new Message(counter, h.date, h.time, h.sender, first);
      } else if message == null {
        error := Some(NoOpenMessage);
      } else {
        message.AddAdditionalLine(ParseLineContent(line, cfg));
      }
    }

    /** One pass of the `parse` loop: strip the raw line, skip it when blank, otherwise `ProcessLine`. */
    method FeedLine(rawLine: string) returns (emitted: Message?, error: Option<ParseError>)
      requires Valid()
      modifies this, counter, message
      ensures Valid()
      ensures var f := Feed(old(Abs()), rawLine, cfg);
              Abs() == f.state && error == f.error
              && (emitted == null <==> f.emitted.None?)
              && (emitted != null ==> f.emitted == Some(emitted.Record()))
      ensures emitted == null || emitted == old(message)
      ensures message == null || message == old(message) || fresh(message)
      ensures emitted != null ==> emitted != message
    {
      var line := Strip(rawLine);
      if IsBlank(line) {
        emitted, error := null, None;
      } else {
        emitted, error := ProcessLine(line);
      }
    }

    /**
     * The loop of `parse`: every raw line goes through `FeedLine` until the
     * first error; the open message stays open. Each handed-over message is
     * collected by its contents.
     */
    method ParseLines(rawLines: seq<string>) returns (emitted: seq<MessageRecord>, error: Option<ParseError>)
      requires Valid()
      modifies this, counter, message
      ensures Valid()
      ensures message == null || message == old(message) || fresh(message)
      ensures Run(old(Abs()), rawLines, cfg) == RunResult(Abs(), emitted, error)
    {
      emitted := [];
      error := None;
      ghost var st0 := Abs();
      var i := 0;
      while i < |rawLines|
        invariant i <= |rawLines|
        invariant Valid()
        invariant message == null || message == old(message) || fresh(message)
        invariant Run(st0, rawLines[..i], cfg) == RunResult(Abs(), emitted, None)
      {
        RunOneMore(st0, rawLines, i, cfg, Abs(), emitted);
        var m, e := FeedLine(rawLines[i]);
        if m != null {
          emitted := emitted + [m.Record()];
        }
        if e.Some? {
          error := e;
          RunStopsAtError(st0, rawLines, i + 1, cfg);
          return;
        }
        i := i + 1;
      }
      assert rawLines[..i] == rawLines;
    }

    /**
     * `parse` over the lines of the export: strips each line, skips blank
     * ones, feeds the rest to `ProcessLine`, and at the end hands over the
     * open message once. An error ends the parse after the messages already
     * handed over.
     */
    method Parse(rawLines: seq<string>) returns (emitted: seq<MessageRecord>, error: Option<ParseError>)
      requires Valid()
      modifies this, counter, message
      ensures Valid() && message == null
      ensures Parsed(old(Abs()), rawLines, cfg) == RunResult(Abs(), emitted, error)
    {
      emitted, error := ParseLines(rawLines);
      if error.None? && message != null {
        emitted := emitted + [message.Record()];
        message := null;
      }
    }
  }
}
