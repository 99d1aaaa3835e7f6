/**
 * Header lines as WhatsApp writes them, `date, time - sender: text`: the
 * split gives the four fields back, and the export lines
 * `01.02.20, 08:30 - Alice: Hello` (alone, and followed by `world`) parse to
 * one message each.
 */
module ParserExamples {
  import opened Wrappers
  import opened Strings
  import opened Lines
  import opened Messages
  import opened Parser
  import opened ParserProperties

  /** Neither starts nor ends with whitespace. */
  predicate Trimmed(x: string)
  {
    x == [] || (!IsSpace(x[0]) && !IsSpace(x[|x| - 1]))
  }

  /** Eight characters `dd?dd?dd`, the `?` anything but a newline, as in `01.02.20`. */
  predicate IsDateField(d: string)
  {
    |d| == 8 && IsDigit(d[0]) && IsDigit(d[1]) && d[2] != '\n' && IsDigit(d[3]) && IsDigit(d[4])
    && d[5] != '\n' && IsDigit(d[6]) && IsDigit(d[7])
  }

  /** Five characters `dd:dd`, as in `08:30`. */
  predicate IsTimeField(t: string)
  {
    |t| == 5 && IsDigit(t[0]) && IsDigit(t[1]) && t[2] == ':' && IsDigit(t[3]) && IsDigit(t[4])
  }

  /** The line the export writes for a message with these fields. */
  function HeaderLine(date: string, time: string, sender: string, text: string): string
  {
    date + ", " + time + " - " + sender + ": " + text
  }

  lemma StripTrimmed(x: string)
    requires Trimmed(x)
    ensures Strip(x) == x
  {
  }

  lemma LStripOneSpace(x: string)
    requires x == [] || !IsSpace(x[0])
    ensures LStrip(" " + x) == x
  {
    assert (" " + x)[1..] == x;
  }

  lemma StripPadded(x: string)
    requires x != [] && Trimmed(x)
    ensures Strip(" " + x) == x
    ensures Strip(" " + x + " ") == x
  {
    LStripOneSpace(x);
    LStripOneSpace(x + " ");
    assert " " + x + " " == " " + (x + " ");
    assert (x + " ")[..|x + " "| - 1] == x;
  }

  /** A line built from a date and a time field carries the timestamp at its start. */
  lemma HeaderLineIsHeader(date: string, time: string, sender: string, text: string)
    requires IsDateField(date) && IsTimeField(time)
    ensures IsHeader(HeaderLine(date, time, sender, text))
  {
    var line := HeaderLine(date, time, sender, text);
    assert line[..8] == date;
    assert line[8..10] == ", ";
    assert line[10..15] == time;
    assert line[15..18] == " - ";
    assert TimestampAt(line, 0);
    IsHeaderSpec(line);
  }

  /** Where the pieces of a header line sit: the `,` at `c`, the `-` at `m`, the `:` at `k`. */
  lemma HeaderLinePieces(date: string, time: string, sender: string, text: string)
    ensures var line := HeaderLine(date, time, sender, text);
            var c := |date|;
            var m := c + |time| + 3;
            var k := m + |sender| + 2;
            k + 1 <= |line| && line[c] == ',' && line[m] == '-' && line[k] == ':'
            && line[..c] == date && line[c + 1..m] == " " + time + " "
            && line[m + 1..k] == " " + sender && line[k + 1..] == " " + text
  {
    var c := |date|;
    var m := c + |time| + 3;
    var k := m + |sender| + 2;
    var line := HeaderLine(date, time, sender, text);
    var tail := " " + time + " - " + sender + ": " + text;
    assert line == date + "," + tail;
    var tail' := " " + sender + ": " + text;
    assert tail == " " + time + " -" + tail';
    assert tail'[|sender| + 1] == ':';
    assert tail'[..|sender| + 1] == " " + sender;
    assert tail'[|sender| + 2..] == " " + text;
  }

  /** The delimiters of a header line are the first ones, when the fields do not contain them. */
  lemma HeaderLineDelimited(date: string, time: string, sender: string, text: string)
    requires Lacks(date, ',', 0, |date|) && Lacks(time, '-', 0, |time|) && Lacks(sender, ':', 0, |sender|)
    ensures DelimitedAt(HeaderLine(date, time, sender, text), |date|, |date| + |time| + 3, |date| + |time| + |sender| + 5)
  {
    var line := HeaderLine(date, time, sender, text);
    var c := |date|;
    var m := c + |time| + 3;
    var k := m + |sender| + 2;
    HeaderLinePieces(date, time, sender, text);
    forall i | 0 <= i < c ensures line[i] != ',' {
      assert line[i] == line[..c][i];
    }
    forall i | c + 1 <= i < m ensures line[i] != '-' {
      assert line[i] == line[c + 1..m][i - c - 1];
    }
    forall i | m + 1 <= i < k ensures line[i] != ':' {
      assert line[i] == line[m + 1..k][i - m - 1];
    }
  }

  /**
   * Round trip: splitting the line written for trimmed fields gives the fields
   * back, provided the date has no `,`, the time no `-`, the sender no `:`,
   * and the text does not start with whitespace.
   */
  lemma HeaderLineSplits(date: string, time: string, sender: string, text: string)
    requires Lacks(date, ',', 0, |date|) && Lacks(time, '-', 0, |time|) && Lacks(sender, ':', 0, |sender|)
    requires Trimmed(date) && time != [] && Trimmed(time) && sender != [] && Trimmed(sender)
    requires text == [] || !IsSpace(text[0])
    ensures SplitHeader(HeaderLine(date, time, sender, text)) == Success(Header(date, time, sender, text))
  {
    var line := HeaderLine(date, time, sender, text);
    HeaderLinePieces(date, time, sender, text);
    HeaderLineDelimited(date, time, sender, text);
    SplitHeaderSpec(line);
    StripTrimmed(date);
    StripPadded(time);
    StripPadded(sender);
    LStripOneSpace(text);
  }

  lemma AbsentCharRulesOut(s: string, sub: string, k: nat)
    requires k < |sub|
    requires forall i :: 0 <= i < |s| ==> s[i] != sub[k]
    ensures !IsSubstring(sub, s)
  {
    forall i: nat | i + |sub| <= |s| ensures !OccursAt(s, sub, i) {
      assert s[i..i + |sub|][k] == s[i + k] != sub[k];
    }
  }

  /** A media match ends in the extension, so the extension occurs in the line. */
  lemma MediaMatchHasExt(s: string, ext: string)
    requires HasMediaMatch(s, ext)
    ensures IsSubstring(ext, s)
  {
    var b: nat, e: nat :| IsMediaMatch(s, b, e, ext);
    assert OccursAt(s, ext, e - |ext|);
  }

  /** None of `4`, `s`, `j` (the letters `mp4`, `opus` and `jpg` do not share) occurs in `w`. */
  predicate NoMediaLetter(w: string)
  {
    w == [] || (w[0] != '4' && w[0] != 's' && w[0] != 'j' && NoMediaLetter(w[1..]))
  }

  lemma {:induction false} NoMediaLetterAt(w: string)
    requires NoMediaLetter(w)
    ensures forall i :: 0 <= i < |w| ==> w[i] != '4' && w[i] != 's' && w[i] != 'j'
  {
    if w != [] {
      NoMediaLetterAt(w[1..]);
      forall i | 1 <= i < |w| ensures w[i] == w[1..][i - 1] {}
    }
  }

  /** A line without `4`, `s` or `j` cannot name a media file; without the marker it is text, kept verbatim. */
  lemma PlainWordIsText(w: string, cfg: Placeholders)
    requires NoMediaLetter(w)
    requires !IsSubstring(cfg.attached, w)
    ensures ParseLineContent(w, cfg) == Line(Text, Some(w), None)
  {
    NoMediaLetterAt(w);
    forall ext | ext in [VideoExt, AudioExt, ImageExt] ensures !HasMediaMatch(w, ext) {
      if HasMediaMatch(w, ext) {
        MediaMatchHasExt(w, ext);
        if ext == VideoExt {
          AbsentCharRulesOut(w, ext, 2);
        } else if ext == AudioExt {
          AbsentCharRulesOut(w, ext, 3);
        } else {
          AbsentCharRulesOut(w, ext, 0);
        }
      }
    }
    ParseLineContentSpec(w, cfg);
  }

  /** A line is a header only if it has the eighteen characters of a timestamp. */
  lemma ShortLineIsNoHeader(line: string)
    requires |line| < 18
    ensures !IsHeader(line)
  {
    IsHeaderSpec(line);
  }

  /** The fields of a well-formed header line: a date and a time field, a sender without `:`, a text. */
  ghost predicate WellFormed(date: string, time: string, sender: string, text: string)
  {
    IsDateField(date) && Lacks(date, ',', 0, |date|) && IsTimeField(time)
    && sender != [] && Lacks(sender, ':', 0, |sender|) && Trimmed(sender) && text != [] && Trimmed(text)
  }

  /** Date and time fields carry no whitespace at their ends, and a time field has no `-`. */
  lemma FieldsTrimmed(date: string, time: string)
    requires IsDateField(date) && IsTimeField(time)
    ensures Trimmed(date) && Trimmed(time) && Lacks(time, '-', 0, |time|)
  {
  }

  /** The line written for trimmed fields, the text not empty, is its own `strip()`. */
  lemma HeaderLineStripped(date: string, time: string, sender: string, text: string)
    requires date != [] && Trimmed(date) && text != [] && Trimmed(text)
    ensures Strip(HeaderLine(date, time, sender, text)) == HeaderLine(date, time, sender, text)
  {
    var line := HeaderLine(date, time, sender, text);
    HeaderLinePieces(date, time, sender, text);
    assert line[0] == line[..|date|][0];
    var k := |date| + |time| + |sender| + 5;
    assert line[|line| - 1] == line[k + 1..][|text|];
    StripTrimmed(line);
  }

  /** A well-formed header line is a header, is its own `strip()`, and splits into its fields. */
  lemma WellFormedHeader(date: string, time: string, sender: string, text: string)
    requires WellFormed(date, time, sender, text)
    ensures Strip(HeaderLine(date, time, sender, text)) == HeaderLine(date, time, sender, text)
    ensures IsHeader(HeaderLine(date, time, sender, text))
    ensures SplitHeader(HeaderLine(date, time, sender, text)) == Success(Header(date, time, sender, text))
  {
    FieldsTrimmed(date, time);
    HeaderLineIsHeader(date, time, sender, text);
    HeaderLineSplits(date, time, sender, text);
    HeaderLineStripped(date, time, sender, text);
  }

  /** Any header line alone: one message, its single line the classified text, the counter's value as index. */
  lemma HeaderOnly(n: nat, header: string, h: Header, cfg: Placeholders)
    requires IsHeader(Strip(header)) && SplitHeader(Strip(header)) == Success(h)
    ensures Parsed(State(None, n), [header], cfg) ==
              RunResult(State(None, n + 1), [MessageRecord(n, h.date, h.time, h.sender, [ParseLineContent(h.text, cfg)])], None)
  {
    NothingAdded(ClassifyOf(cfg));
    AppendEmpty([ParseLineContent(h.text, cfg)]);
    AppendEmpty([header]);
    HeaderThenContinuations(n, header, [], h, cfg);
  }

  lemma AppendEmpty<T>(x: seq<T>)
    ensures x + [] == x
  {
  }

  lemma NothingAdded(add: string -> seq<Line>)
    ensures AddedBy(add, []) == []
  {
  }

  lemma PairConcat<T>(a: T, b: T)
    ensures [a] + [b] == [a, b]
  {
  }

  lemma AddedByOne(add: string -> seq<Line>, x: string)
    ensures AddedBy(add, [x]) == add(x)
  {
    assert [x][..0] == [];
  }

  /** Any header line and one continuation line: one message with both lines, in order. */
  lemma HeaderAndLine(n: nat, header: string, more: string, h: Header, cfg: Placeholders)
    requires IsHeader(Strip(header)) && SplitHeader(Strip(header)) == Success(h)
    requires !IsHeader(Strip(more)) && !IsBlank(Strip(more))
    ensures Parsed(State(None, n), [header, more], cfg) ==
              RunResult(State(None, n + 1),
                        [MessageRecord(n, h.date, h.time, h.sender, [ParseLineContent(h.text, cfg), ParseLineContent(Strip(more), cfg)])],
                        None)
  {
    PairConcat(header, more);
    PairConcat(ParseLineContent(h.text, cfg), ParseLineContent(Strip(more), cfg));
    AddedByOne(ClassifyOf(cfg), more);
    HeaderThenContinuations(n, header, [more], h, cfg);
  }

  /** A well-formed header line alone: one message holding its fields and its classified text. */
  lemma HeaderAlone(n: nat, date: string, time: string, sender: string, text: string, cfg: Placeholders)
    requires WellFormed(date, time, sender, text)
    ensures Parsed(State(None, n), [HeaderLine(date, time, sender, text)], cfg) ==
              RunResult(State(None, n + 1), [MessageRecord(n, date, time, sender, [ParseLineContent(text, cfg)])], None)
  {
    WellFormedHeader(date, time, sender, text);
    HeaderOnly(n, HeaderLine(date, time, sender, text), Header(date, time, sender, text), cfg);
  }

  /** A well-formed header line and one short trimmed continuation line: one message with both lines, in order. */
  lemma HeaderThenOneLine(n: nat, date: string, time: string, sender: string, text: string, more: string, cfg: Placeholders)
    requires WellFormed(date, time, sender, text)
    requires more != [] && Trimmed(more) && |more| < 18
    ensures Parsed(State(None, n), [HeaderLine(date, time, sender, text), more], cfg) ==
              RunResult(State(None, n + 1),
                        [MessageRecord(n, date, time, sender, [ParseLineContent(text, cfg), ParseLineContent(more, cfg)])], None)
  {
    StripTrimmed(more);
    ShortLineIsNoHeader(more);
    WellFormedHeader(date, time, sender, text);
    HeaderAndLine(n, HeaderLine(date, time, sender, text), more, Header(date, time, sender, text), cfg);
  }

  /** A well-formed header line whose text names no media file nor the marker: one message with that text verbatim. */
  lemma TextHeaderAlone(n: nat, date: string, time: string, sender: string, text: string, cfg: Placeholders)
    requires WellFormed(date, time, sender, text)
    requires NoMediaLetter(text) && !IsSubstring(cfg.attached, text)
    ensures Parsed(State(None, n), [HeaderLine(date, time, sender, text)], cfg) ==
              RunResult(State(None, n + 1), [MessageRecord(n, date, time, sender, [Line(Text, Some(text), None)])], None)
  {
    PlainWordIsText(text, cfg);
    HeaderAlone(n, date, time, sender, text, cfg);
  }

  /** The same, followed by a short plain continuation line: one message with both texts verbatim, in order. */
  lemma TextHeaderThenLine(n: nat, date: string, time: string, sender: string, text: string, more: string, cfg: Placeholders)
    requires WellFormed(date, time, sender, text)
    requires NoMediaLetter(text) && !IsSubstring(cfg.attached, text)
    requires more != [] && Trimmed(more) && |more| < 18 && NoMediaLetter(more) && !IsSubstring(cfg.attached, more)
    ensures Parsed(State(None, n), [HeaderLine(date, time, sender, text), more], cfg) ==
              RunResult(State(None, n + 1),
                        [MessageRecord(n, date, time, sender, [Line(Text, Some(text), None), Line(Text, Some(more), None)])], None)
  {
    PlainWordIsText(text, cfg);
    PlainWordIsText(more, cfg);
    HeaderThenOneLine(n, date, time, sender, text, more, cfg);
  }

  lemma AliceFields()
    ensures WellFormed("01.02.20", "08:30", "Alice", "Hello")
  {
  }

  lemma AliceLine()
    ensures HeaderLine("01.02.20", "08:30", "Alice", "Hello") == "01.02.20, 08:30 - Alice: Hello"
  {
  }

  /** `01.02.20, 08:30 - Alice: Hello` alone: one message from Alice whose single line is the text `Hello`. */
  lemma AliceHello(n: nat, cfg: Placeholders)
    requires !IsSubstring(cfg.attached, "Hello")
    ensures Parsed(State(None, n), ["01.02.20, 08:30 - Alice: Hello"], cfg) ==
              RunResult(State(None, n + 1), [MessageRecord(n, "01.02.20", "08:30", "Alice", [Line(Text, Some("Hello"), None)])], None)
  {
    AliceFields();
    AliceLine();
    TextHeaderAlone(n, "01.02.20", "08:30", "Alice", "Hello", cfg);
  }

  /** The same line followed by `world`: one message with the text lines `Hello` and `world`, in that order. */
  lemma AliceHelloWorld(n: nat, cfg: Placeholders)
    requires !IsSubstring(cfg.attached, "Hello") && !IsSubstring(cfg.attached, "world")
    ensures Parsed(State(None, n), ["01.02.20, 08:30 - Alice: Hello", "world"], cfg) ==
              RunResult(State(None, n + 1),
                        [MessageRecord(n, "01.02.20", "08:30", "Alice", [Line(Text, Some("Hello"), None), Line(Text, Some("world"), None)])],
                        None)
  {
    AliceFields();
    AliceLine();
    TextHeaderThenLine(n, "01.02.20", "08:30", "Alice", "Hello", "world", cfg);
  }

  /** A line that is exactly the attachment marker, and names no media file, is dropped as `Skip` without error. */
  lemma MarkerLineIsSkipped(cfg: Placeholders)
    requires !HasMediaMatch(cfg.attached, VideoExt) && !HasMediaMatch(cfg.attached, AudioExt)
    requires !HasMediaMatch(cfg.attached, ImageExt)
    ensures ParseLineContent(cfg.attached, cfg) == Line(Skip, None, None)
  {
    assert OccursAt(cfg.attached, cfg.attached, 0);
    ParseLineContentSpec(cfg.attached, cfg);
  }
}
