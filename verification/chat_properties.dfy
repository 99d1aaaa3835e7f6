/**
 * Properties of the `parse` loop over whole inputs: blank lines change
 * nothing, one message is handed over per header line, indices are handed out
 * consecutively, and continuation lines pile up on the open message in order.
 *
 * Each is proved once for `Loop` with any per-line step that has the one-line
 * property it needs, and then for `Feed`, the step `parse` takes.
 */
module ParserProperties {
  import opened Wrappers
  import opened Strings
  import opened Lines
  import opened Messages
  import opened Parser

  /** After `strip()` only the empty string is blank: the other three entries of the blank list cannot occur. */
  lemma StrippedBlankIsEmpty(raw: string)
    ensures IsBlank(Strip(raw)) <==> Strip(raw) == ""
  {
  }

  /**
   * `process_line` fails on a continuation line while no message is open,
   * and on a header line only when the `:` split fails; a step without
   * error leaves a message open.
   */
  lemma StepErrorCases(st: State, line: string, cfg: Placeholders)
    ensures Step(st, line, cfg).error == Some(NoOpenMessage) <==> !IsHeader(line) && st.open.None?
    ensures IsHeader(line) && Step(st, line, cfg).error.Some? ==>
              Step(st, line, cfg).error == Some(MissingDelimiter(':'))
    ensures Step(st, line, cfg).error.None? ==> Step(st, line, cfg).state.open.Some?
  {
    if IsHeader(line) {
      HeaderSplitOnlyFailsOnColon(line);
    }
  }

  /** Running `a + b` is running `a` and then, unless it failed, `b` from where `a` left off. */
  lemma {:induction false} LoopAppend(feed: (State, string) -> StepResult, st: State, a: seq<string>, b: seq<string>)
    ensures var first := Loop(feed, st, a);
            var second := Loop(feed, first.state, b);
            Loop(feed, st, a + b) ==
              if first.error.Some? then first
              else RunResult(second.state, first.emitted + second.emitted, second.error)
    decreases |b|
  {
    if b == [] {
      assert a + b == a;
    } else {
      var init := b[..|b| - 1];
      assert (a + b)[..|a + b| - 1] == a + init;
      assert (a + b)[|a + b| - 1] == b[|b| - 1];
      LoopAppend(feed, st, a, init);
    }
  }

  /** Messages handed over stay handed over: the output of a prefix is a prefix of the output. */
  lemma EmittedOnlyGrows(st: State, lines: seq<string>, i: nat, cfg: Placeholders)
    requires i <= |lines|
    ensures Run(st, lines[..i], cfg).emitted <= Run(st, lines, cfg).emitted
  {
    assert lines == lines[..i] + lines[i..];
    LoopAppend(FeedOf(cfg), st, lines[..i], lines[i..]);
  }

  /** The lines that are not blank after `strip()`, in input order. */
  function NonBlank(lines: seq<string>): (r: seq<string>)
    ensures |r| <= |lines|
    ensures forall i :: 0 <= i < |r| ==> !IsBlank(Strip(r[i]))
  {
    if lines == [] then []
    else
      var kept := NonBlank(lines[..|lines| - 1]);
      var last := lines[|lines| - 1];
      if IsBlank(Strip(last)) then kept else kept + [last]
  }

  /** The step leaves everything as it was on a line that is blank after `strip()`. */
  ghost predicate SkipsBlank(feed: (State, string) -> StepResult)
  {
    forall s: State, raw: string :: IsBlank(Strip(raw)) ==> feed(s, raw) == StepResult(s, None, None)
  }

  lemma {:induction false} LoopIgnoresBlankLines(feed: (State, string) -> StepResult, st: State, lines: seq<string>)
    requires SkipsBlank(feed)
    ensures Loop(feed, st, lines) == Loop(feed, st, NonBlank(lines))
    decreases |lines|
  {
    if lines != [] {
      var init := lines[..|lines| - 1];
      var last := lines[|lines| - 1];
      LoopIgnoresBlankLines(feed, st, init);
      var nb := NonBlank(lines);
      if IsBlank(Strip(last)) {
        assert nb == NonBlank(init);
      } else {
        assert nb[..|nb| - 1] == NonBlank(init);
        assert nb[|nb| - 1] == last;
      }
    }
  }

  /** Blank lines are skipped and change nothing: `parse`, flush included, sees only the non-blank ones. */
  lemma BlankLinesChangeNothing(st: State, lines: seq<string>, cfg: Placeholders)
    ensures Run(st, lines, cfg) == Run(st, NonBlank(lines), cfg)
    ensures Parsed(st, lines, cfg) == Parsed(st, NonBlank(lines), cfg)
  {
    assert SkipsBlank(FeedOf(cfg));
    LoopIgnoresBlankLines(FeedOf(cfg), st, lines);
  }

  /** The number of header lines, after `strip()`, in the input. */
  function CountHeaders(lines: seq<string>): (n: nat)
    ensures n <= |lines|
  {
    if lines == [] then 0
    else CountHeaders(lines[..|lines| - 1]) + (if IsHeader(Strip(lines[|lines| - 1])) then 1 else 0)
  }

  /** A header has at least eighteen characters, so it is never blank. */
  lemma HeaderIsNotBlank(line: string)
    requires IsHeader(line)
    ensures !IsBlank(line)
  {
    IsHeaderSpec(line);
  }

  function OpenCount(st: State): nat
  {
    if st.open.Some? then 1 else 0
  }

  /** Without an error, a header line hands over the message open before it and opens one; other lines do neither. */
  ghost predicate CountsHeaders(feed: (State, string) -> StepResult)
  {
    forall s: State, raw: string :: feed(s, raw).error.None? ==>
      |OptionToSeq(feed(s, raw).emitted)| + OpenCount(feed(s, raw).state)
        == OpenCount(s) + (if IsHeader(Strip(raw)) then 1 else 0)
  }

  lemma FeedCountsHeaders(cfg: Placeholders)
    ensures CountsHeaders(FeedOf(cfg))
  {
    forall s: State, raw: string | Feed(s, raw, cfg).error.None?
      ensures |OptionToSeq(Feed(s, raw, cfg).emitted)| + OpenCount(Feed(s, raw, cfg).state)
                == OpenCount(s) + (if IsHeader(Strip(raw)) then 1 else 0)
    {
      if IsHeader(Strip(raw)) {
        HeaderIsNotBlank(Strip(raw));
        FeedIsStep(s, raw, cfg);
        StepCountsHeaders(s, Strip(raw), cfg);
      }
    }
  }

  lemma StepCountsHeaders(s: State, line: string, cfg: Placeholders)
    requires Step(s, line, cfg).error.None?
    ensures var f := Step(s, line, cfg);
            |OptionToSeq(f.emitted)| + OpenCount(f.state) == OpenCount(s) + (if IsHeader(line) then 1 else 0)
  {
  }

  lemma {:induction false} LoopCountsHeaders(feed: (State, string) -> StepResult, st: State, lines: seq<string>)
    requires CountsHeaders(feed)
    requires Loop(feed, st, lines).error.None?
    ensures |Loop(feed, st, lines).emitted| + OpenCount(Loop(feed, st, lines).state) == CountHeaders(lines) + OpenCount(st)
    decreases |lines|
  {
    if lines != [] {
      LoopCountsHeaders(feed, st, lines[..|lines| - 1]);
    }
  }

  /** A `parse` without error hands over one message per header line, plus the one open at the start, if any. */
  lemma ParsedCountsHeaders(st: State, lines: seq<string>, cfg: Placeholders)
    requires Parsed(st, lines, cfg).error.None?
    ensures |Parsed(st, lines, cfg).emitted| == CountHeaders(lines) + OpenCount(st)
  {
    FeedCountsHeaders(cfg);
    LoopCountsHeaders(FeedOf(cfg), st, lines);
  }

  /**
   * From a state whose open message is the latest, the step hands over only
   * that message, keeps the open message the latest, and moves the counter
   * by exactly the messages it opens.
   */
  ghost predicate NumbersInOrder(feed: (State, string) -> StepResult)
  {
    forall s: State, raw: string :: OpenIsLatest(s) ==>
      (feed(s, raw).emitted.Some? ==> feed(s, raw).emitted == s.open)
      && OpenIsLatest(feed(s, raw).state)
      && feed(s, raw).state.next + OpenCount(s)
           == s.next + OpenCount(feed(s, raw).state) + |OptionToSeq(feed(s, raw).emitted)|
  }

  lemma FeedNumbersInOrder(cfg: Placeholders)
    ensures NumbersInOrder(FeedOf(cfg))
  {
    forall s: State, raw: string | OpenIsLatest(s)
      ensures var f := Feed(s, raw, cfg);
              (f.emitted.Some? ==> f.emitted == s.open)
              && OpenIsLatest(f.state)
              && f.state.next + OpenCount(s) == s.next + OpenCount(f.state) + |OptionToSeq(f.emitted)|
    {
      if !IsBlank(Strip(raw)) {
        FeedIsStep(s, raw, cfg);
        StepNumbersInOrder(s, Strip(raw), cfg);
      }
    }
  }

  lemma StepNumbersInOrder(s: State, line: string, cfg: Placeholders)
    requires OpenIsLatest(s)
    ensures var f := Step(s, line, cfg);
            (f.emitted.Some? ==> f.emitted == s.open)
            && OpenIsLatest(f.state)
            && f.state.next + OpenCount(s) == s.next + OpenCount(f.state) + |OptionToSeq(f.emitted)|
  {
  }

  /**
   * Messages are handed over in index order, with consecutive indices from
   * `base`; the open message carries the next index and the counter is one
   * past it.
   */
  ghost predicate Numbered(base: nat, r: RunResult)
  {
    (forall k :: 0 <= k < |r.emitted| ==> r.emitted[k].index == base + k)
    && (r.state.open.Some? ==> r.state.open.value.index == base + |r.emitted|)
    && r.state.next == base + |r.emitted| + OpenCount(r.state)
  }

  lemma {:induction false} LoopNumbersMessages(feed: (State, string) -> StepResult, base: nat, st: State, lines: seq<string>)
    requires NumbersInOrder(feed)
    requires Numbered(base, RunResult(st, [], None))
    ensures Numbered(base, Loop(feed, st, lines))
    decreases |lines|
  {
    if lines != [] {
      LoopNumbersMessages(feed, base, st, lines[..|lines| - 1]);
      var prev := Loop(feed, st, lines[..|lines| - 1]);
      if prev.error.None? {
        var s := feed(prev.state, lines[|lines| - 1]);
        var out := prev.emitted + OptionToSeq(s.emitted);
        assert forall k :: 0 <= k < |prev.emitted| ==> out[k] == prev.emitted[k];
      }
    }
  }

  /** From a parser with no open message, `parse` hands over indices `next`, `next + 1`, ... in order. */
  lemma ParsedIndicesConsecutive(st: State, lines: seq<string>, cfg: Placeholders)
    requires st.open.None?
    ensures var out := Parsed(st, lines, cfg).emitted;
            (forall k :: 0 <= k < |out| ==> out[k].index == st.next + k)
            && Parsed(st, lines, cfg).state.next == st.next + |out|
  {
    FeedNumbersInOrder(cfg);
    LoopNumbersMessages(FeedOf(cfg), st.next, st, lines);
  }

  /**
   * End of input hands over the message still open exactly once: without an
   * error, the output is the loop's output plus that message, and a second
   * end of input, with no further lines, hands over nothing.
   */
  lemma FlushOnce(st: State, lines: seq<string>, cfg: Placeholders)
    requires Run(st, lines, cfg).error.None?
    ensures Parsed(st, lines, cfg).emitted == Run(st, lines, cfg).emitted + OptionToSeq(Run(st, lines, cfg).state.open)
    ensures Parsed(Parsed(st, lines, cfg).state, [], cfg).emitted == []
  {
  }

  /** What a continuation line adds to the open message: nothing when blank, else its classification. */
  function Classified(raw: string, cfg: Placeholders): (r: seq<Line>)
    ensures |r| <= 1
  {
    var line := Strip(raw);
    if IsBlank(line) then [] else [ParseLineContent(line, cfg)]
  }

  function ClassifyOf(cfg: Placeholders): string -> seq<Line>
  {
    (raw: string) => Classified(raw, cfg)
  }

  /** Everything `add` makes of `lines`, in input order. */
  function AddedBy(add: string -> seq<Line>, lines: seq<string>): seq<Line>
  {
    if lines == [] then [] else AddedBy(add, lines[..|lines| - 1]) + add(lines[|lines| - 1])
  }

  /** One classified line per non-blank line. */
  lemma {:induction false} ClassifiedCount(cfg: Placeholders, lines: seq<string>)
    ensures |AddedBy(ClassifyOf(cfg), lines)| == |NonBlank(lines)|
    decreases |lines|
  {
    if lines != [] {
      ClassifiedCount(cfg, lines[..|lines| - 1]);
    }
  }

  /** A line without a timestamp, fed while a message is open, adds `add` of it to that message and nothing else. */
  ghost predicate AppendsContinuations(feed: (State, string) -> StepResult, add: string -> seq<Line>)
  {
    forall s: State, raw: string :: s.open.Some? && !IsHeader(Strip(raw)) ==>
      feed(s, raw) == StepResult(State(Some(s.open.value.(lines := s.open.value.lines + add(raw))), s.next), None, None)
  }

  lemma FeedAppendsContinuations(cfg: Placeholders)
    ensures AppendsContinuations(FeedOf(cfg), ClassifyOf(cfg))
  {
    forall s: State, raw: string | s.open.Some? && !IsHeader(Strip(raw))
      ensures Feed(s, raw, cfg) == StepResult(State(Some(s.open.value.(lines := s.open.value.lines + Classified(raw, cfg))), s.next), None, None)
    {
      if IsBlank(Strip(raw)) {
        var m := s.open.value;
        assert m.(lines := m.lines + []) == m;
      }
    }
  }

  lemma ConcatAssociates<T>(a: seq<T>, b: seq<T>, c: seq<T>)
    ensures (a + b) + c == a + (b + c)
  {
  }

  lemma ConcatAssociates4<T>(a: seq<T>, b: seq<T>, c: seq<T>, d: seq<T>)
    ensures a + b + c + d == a + (b + c + d)
  {
  }

  /** Lines without a timestamp are appended, in order, to the open message; nothing is handed over. */
  lemma {:induction false} LoopAppendsContinuations(feed: (State, string) -> StepResult, add: string -> seq<Line>,
                                                    st: State, lines: seq<string>)
    requires AppendsContinuations(feed, add)
    requires st.open.Some?
    requires forall i :: 0 <= i < |lines| ==> !IsHeader(Strip(lines[i]))
    ensures Loop(feed, st, lines) ==
              RunResult(State(Some(st.open.value.(lines := st.open.value.lines + AddedBy(add, lines))), st.next), [], None)
    decreases |lines|
  {
    var m := st.open.value;
    if lines == [] {
      assert m.(lines := m.lines + []) == m;
    } else {
      var init := lines[..|lines| - 1];
      var raw := lines[|lines| - 1];
      assert forall i :: 0 <= i < |init| ==> init[i] == lines[i];
      LoopAppendsContinuations(feed, add, st, init);
      var prev := Loop(feed, st, init);
      var grown := m.(lines := m.lines + AddedBy(add, init));
      assert prev == RunResult(State(Some(grown), st.next), [], None);
      assert !IsHeader(Strip(raw));
      var s := feed(prev.state, raw);
      assert s == StepResult(State(Some(grown.(lines := grown.lines + add(raw))), st.next), None, None);
      var tail := add(raw);
      assert AddedBy(add, lines) == AddedBy(add, init) + tail;
      ConcatAssociates(m.lines, AddedBy(add, init), tail);
    }
  }

  /**
   * A header line that splits hands over the message open before it and
   * opens a new one with the counter's value, the header's fields and its
   * text as the first line.
   */
  lemma FeedHeader(st: State, raw: string, h: Header, cfg: Placeholders)
    requires IsHeader(Strip(raw)) && SplitHeader(Strip(raw)) == Success(h)
    ensures Feed(st, raw, cfg) ==
              StepResult(State(Some(MessageRecord(st.next, h.date, h.time, h.sender, [ParseLineContent(h.text, cfg)])), st.next + 1),
                         st.open, None)
  {
    HeaderIsNotBlank(Strip(raw));
    FeedIsStep(st, raw, cfg);
    StepHeader(st, Strip(raw), h, cfg);
  }

  lemma FeedOfHeader(n: nat, raw: string, h: Header, cfg: Placeholders)
    requires IsHeader(Strip(raw)) && SplitHeader(Strip(raw)) == Success(h)
    ensures FeedOf(cfg)(State(None, n), raw) ==
              StepResult(State(Some(MessageRecord(n, h.date, h.time, h.sender, [ParseLineContent(h.text, cfg)])), n + 1), None, None)
  {
    FeedHeader(State(None, n), raw, h, cfg);
    FeedOfApplies(cfg, State(None, n), raw);
  }

  /** A line that is not blank after `strip()` goes to `process_line`. */
  lemma FeedIsStep(st: State, raw: string, cfg: Placeholders)
    requires !IsBlank(Strip(raw))
    ensures Feed(st, raw, cfg) == Step(st, Strip(raw), cfg)
  {
  }

  lemma FeedOfApplies(cfg: Placeholders, st: State, raw: string)
    ensures FeedOf(cfg)(st, raw) == Feed(st, raw, cfg)
  {
  }

  lemma LoopOne(feed: (State, string) -> StepResult, st: State, line: string)
    ensures var s := feed(st, line);
            Loop(feed, st, [line]) == RunResult(s.state, OptionToSeq(s.emitted), s.error)
  {
    assert [line][..0] == [];
  }

  /** A line that opens a message with nothing open, then continuation lines: one message, still open. */
  lemma LoopOpensThenAppends(feed: (State, string) -> StepResult, add: string -> seq<Line>, n: nat, header: string,
                             lines: seq<string>, date: string, time: string, sender: string, first: seq<Line>)
    requires feed(State(None, n), header) == StepResult(State(Some(MessageRecord(n, date, time, sender, first)), n + 1), None, None)
    requires AppendsContinuations(feed, add)
    requires forall i :: 0 <= i < |lines| ==> !IsHeader(Strip(lines[i]))
    ensures Loop(feed, State(None, n), [header] + lines) ==
              RunResult(State(Some(MessageRecord(n, date, time, sender, first + AddedBy(add, lines))), n + 1), [], None)
  {
    var started := MessageRecord(n, date, time, sender, first);
    LoopOne(feed, State(None, n), header);
    LoopAppendsContinuations(feed, add, State(Some(started), n + 1), lines);
    LoopAppend(feed, State(None, n), [header], lines);
  }

  /** The loop part: the header's message stays open, with the continuation lines appended. */
  lemma RunHeaderThenContinuations(n: nat, header: string, lines: seq<string>, h: Header, cfg: Placeholders)
    requires IsHeader(Strip(header)) && SplitHeader(Strip(header)) == Success(h)
    requires forall i :: 0 <= i < |lines| ==> !IsHeader(Strip(lines[i]))
    ensures var m := MessageRecord(n, h.date, h.time, h.sender, [ParseLineContent(h.text, cfg)] + AddedBy(ClassifyOf(cfg), lines));
            Run(State(None, n), [header] + lines, cfg) == RunResult(State(Some(m), n + 1), [], None)
  {
    FeedOfHeader(n, header, h, cfg);
    FeedAppendsContinuations(cfg);
    LoopOpensThenAppends(FeedOf(cfg), ClassifyOf(cfg), n, header, lines, h.date, h.time, h.sender, [ParseLineContent(h.text, cfg)]);
  }

  /**
   * A header followed by continuation lines, from a parser with no open
   * message, gives exactly one message: index `next`, the header's fields,
   * and the header's text followed by the non-blank continuation lines, one
   * line each, in input order.
   */
  lemma HeaderThenContinuations(n: nat, header: string, lines: seq<string>, h: Header, cfg: Placeholders)
    requires IsHeader(Strip(header)) && SplitHeader(Strip(header)) == Success(h)
    requires forall i :: 0 <= i < |lines| ==> !IsHeader(Strip(lines[i]))
    ensures var m := MessageRecord(n, h.date, h.time, h.sender, [ParseLineContent(h.text, cfg)] + AddedBy(ClassifyOf(cfg), lines));
            Parsed(State(None, n), [header] + lines, cfg) == RunResult(State(None, n + 1), [m], None)
            && |m.lines| == |NonBlank(lines)| + 1
  {
    RunHeaderThenContinuations(n, header, lines, h, cfg);
    var m := MessageRecord(n, h.date, h.time, h.sender, [ParseLineContent(h.text, cfg)] + AddedBy(ClassifyOf(cfg), lines));
    FlushOpenOnly(State(None, n), [header] + lines, cfg, m, n + 1);
    ClassifiedCount(cfg, lines);
  }

  /** A loop that ends without error with one message open and none handed over: `parse` hands over just that one. */
  lemma FlushOpenOnly(st: State, lines: seq<string>, cfg: Placeholders, m: MessageRecord, k: nat)
    requires Run(st, lines, cfg) == RunResult(State(Some(m), k), [], None)
    ensures Parsed(st, lines, cfg) == RunResult(State(None, k), [m], None)
  {
  }

  /**
   * From any state, a header line that opens a message, continuation lines,
   * and a next line that hands over whatever is open: the messages handed
   * over are the one open before the header, if any, and then the header's
   * message with the continuations appended in order.
   */
  lemma {:induction false} LoopClosedByNext(feed: (State, string) -> StepResult, add: string -> seq<Line>, s0: State,
                                            header: string, cs: seq<string>, next: string,
                                            date: string, time: string, sender: string, first: seq<Line>)
    requires feed(s0, header) ==
               StepResult(State(Some(MessageRecord(s0.next, date, time, sender, first)), s0.next + 1), s0.open, None)
    requires AppendsContinuations(feed, add)
    requires forall i :: 0 <= i < |cs| ==> !IsHeader(Strip(cs[i]))
    requires forall s: State :: feed(s, next).emitted == s.open && feed(s, next).error.None?
    ensures Loop(feed, s0, [header] + cs + [next]).error.None?
    ensures Loop(feed, s0, [header] + cs + [next]).emitted ==
              OptionToSeq(s0.open) + [MessageRecord(s0.next, date, time, sender, first + AddedBy(add, cs))]
  {
    var started := MessageRecord(s0.next, date, time, sender, first);
    var openState := State(Some(started), s0.next + 1);
    LoopOne(feed, s0, header);
    LoopAppendsContinuations(feed, add, openState, cs);
    LoopAppend(feed, s0, [header], cs);
    var mid := Loop(feed, s0, [header] + cs);
    assert mid.emitted == OptionToSeq(s0.open) && mid.error.None?;
    var closed := MessageRecord(s0.next, date, time, sender, first + AddedBy(add, cs));
    assert mid.state.open == Some(closed);
    LoopOne(feed, mid.state, next);
    LoopAppend(feed, s0, [header] + cs, [next]);
  }

  /** A header line that splits hands over whatever is open, from any state, without error. */
  lemma FeedOfHeaderHandsOver(next: string, cfg: Placeholders)
    requires IsHeader(Strip(next)) && SplitHeader(Strip(next)).Success?
    ensures forall s: State :: FeedOf(cfg)(s, next).emitted == s.open && FeedOf(cfg)(s, next).error.None?
  {
    forall s: State ensures FeedOf(cfg)(s, next).emitted == s.open && FeedOf(cfg)(s, next).error.None? {
      FeedHeader(s, next, SplitHeader(Strip(next)).value, cfg);
      FeedOfApplies(cfg, s, next);
    }
  }

  lemma FeedOfHeaderOpens(s0: State, header: string, h: Header, cfg: Placeholders)
    requires IsHeader(Strip(header)) && SplitHeader(Strip(header)) == Success(h)
    ensures FeedOf(cfg)(s0, header) ==
              StepResult(State(Some(MessageRecord(s0.next, h.date, h.time, h.sender, [ParseLineContent(h.text, cfg)])), s0.next + 1),
                         s0.open, None)
  {
    FeedHeader(s0, header, h, cfg);
    FeedOfApplies(cfg, s0, header);
  }

  /**
   * The message a later header closes: after any prefix `a` that parsed
   * without error, a header, continuation lines `cs` and the next header
   * hand over the message open after `a`, if any, and then one message with
   * the counter's value after `a`, the header's fields, and the header's
   * text followed by the non-blank continuation lines in order.
   */
  lemma NextHeaderClosesMessage(st: State, a: seq<string>, header: string, cs: seq<string>, next: string,
                                h: Header, cfg: Placeholders)
    requires Run(st, a, cfg).error.None?
    requires IsHeader(Strip(header)) && SplitHeader(Strip(header)) == Success(h)
    requires IsHeader(Strip(next)) && SplitHeader(Strip(next)).Success?
    requires forall i :: 0 <= i < |cs| ==> !IsHeader(Strip(cs[i]))
    ensures var before := Run(st, a, cfg);
            var m := MessageRecord(before.state.next, h.date, h.time, h.sender,
                                   [ParseLineContent(h.text, cfg)] + AddedBy(ClassifyOf(cfg), cs));
            var after := Run(st, a + [header] + cs + [next], cfg);
            after.error.None? && after.emitted == before.emitted + (OptionToSeq(before.state.open) + [m])
            && |m.lines| == |NonBlank(cs)| + 1
  {
    var s0 := Run(st, a, cfg).state;
    FeedOfHeaderOpens(s0, header, h, cfg);
    FeedAppendsContinuations(cfg);
    FeedOfHeaderHandsOver(next, cfg);
    LoopClosedByNext(FeedOf(cfg), ClassifyOf(cfg), s0, header, cs, next, h.date, h.time, h.sender, [ParseLineContent(h.text, cfg)]);
    ConcatAssociates4(a, [header], cs, [next]);
    LoopAppend(FeedOf(cfg), st, a, [header] + cs + [next]);
    ClassifiedCount(cfg, cs);
  }

  /**
   * From any state, a line that opens a message and then continuation
   * lines: the message open before is handed over, if any, and the new one
   * stays open with the continuations appended in order.
   */
  lemma {:induction false} LoopOpensFromAny(feed: (State, string) -> StepResult, add: string -> seq<Line>, s0: State,
                                            header: string, cs: seq<string>,
                                            date: string, time: string, sender: string, first: seq<Line>)
    requires feed(s0, header) ==
               StepResult(State(Some(MessageRecord(s0.next, date, time, sender, first)), s0.next + 1), s0.open, None)
    requires AppendsContinuations(feed, add)
    requires forall i :: 0 <= i < |cs| ==> !IsHeader(Strip(cs[i]))
    ensures Loop(feed, s0, [header] + cs) ==
              RunResult(State(Some(MessageRecord(s0.next, date, time, sender, first + AddedBy(add, cs))), s0.next + 1),
                        OptionToSeq(s0.open), None)
  {
    var started := MessageRecord(s0.next, date, time, sender, first);
    LoopOne(feed, s0, header);
    LoopAppendsContinuations(feed, add, State(Some(started), s0.next + 1), cs);
    LoopAppend(feed, s0, [header], cs);
  }

  /** After an error-free prefix, a line that opens a message and continuation lines: that message stays open. */
  lemma LoopOpensAfterPrefix(feed: (State, string) -> StepResult, add: string -> seq<Line>, st: State, a: seq<string>,
                             header: string, cs: seq<string>, date: string, time: string, sender: string, first: seq<Line>)
    requires Loop(feed, st, a).error.None?
    requires var s0 := Loop(feed, st, a).state;
             feed(s0, header) ==
               StepResult(State(Some(MessageRecord(s0.next, date, time, sender, first)), s0.next + 1), s0.open, None)
    requires AppendsContinuations(feed, add)
    requires forall i :: 0 <= i < |cs| ==> !IsHeader(Strip(cs[i]))
    ensures var before := Loop(feed, st, a);
            Loop(feed, st, a + ([header] + cs)) ==
              RunResult(State(Some(MessageRecord(before.state.next, date, time, sender, first + AddedBy(add, cs))),
                              before.state.next + 1),
                        before.emitted + OptionToSeq(before.state.open), None)
  {
    LoopOpensFromAny(feed, add, Loop(feed, st, a).state, header, cs, date, time, sender, first);
    LoopAppend(feed, st, a, [header] + cs);
  }

  /**
   * The last message of a chat: after any prefix `a` that parsed without
   * error, a header and continuation lines up to the end of input make
   * `parse` hand over the message open after `a`, if any, and then one
   * message with the counter's value after `a`, the header's fields, and the
   * header's text followed by one line per non-blank continuation line, in
   * order.
   */
  lemma LastMessageFlushed(st: State, a: seq<string>, header: string, cs: seq<string>, h: Header, cfg: Placeholders)
    requires Run(st, a, cfg).error.None?
    requires IsHeader(Strip(header)) && SplitHeader(Strip(header)) == Success(h)
    requires forall i :: 0 <= i < |cs| ==> !IsHeader(Strip(cs[i]))
    ensures var before := Run(st, a, cfg);
            var m := MessageRecord(before.state.next, h.date, h.time, h.sender,
                                   [ParseLineContent(h.text, cfg)] + AddedBy(ClassifyOf(cfg), cs));
            Parsed(st, a + ([header] + cs), cfg) ==
              RunResult(State(None, before.state.next + 1), before.emitted + OptionToSeq(before.state.open) + [m], None)
    ensures |AddedBy(ClassifyOf(cfg), cs)| == |NonBlank(cs)|
  {
    ClassifiedCount(cfg, cs);
    FeedOfHeaderOpens(Run(st, a, cfg).state, header, h, cfg);
    FeedAppendsContinuations(cfg);
    LoopOpensAfterPrefix(FeedOf(cfg), ClassifyOf(cfg), st, a, header, cs, h.date, h.time, h.sender, [ParseLineContent(h.text, cfg)]);
  }
}
