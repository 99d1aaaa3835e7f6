# yawab chat parser in Dafny

This project models the parsing core of yawab (`yawab.py`), a converter from a
German WhatsApp chat export to a document. The core has two parts:

- **Line classification** (`Line.parse_line_content` and `LineType`). One trimmed
  chat line becomes a video, voice, image, skipped or text line, tried in that
  order, and the first match wins. A media line carries the localized
  placeholder as its content. Its file name is the token matched by
  `([a-zA-Z0-9-_]+).mp4` (or `.opus`, `.jpg`).
- **Message assembly** (`Message` and `ChatParser`). A scanner over the lines of
  the export:
  - it strips each line and skips blank ones;
  - a line holding the timestamp pattern `\d{2}.\d{2}.\d{2},\s\d{2}:\d{2}\s-\s`
    hands over the open message, then opens a new one from the fields cut at the
    first `,`, `-` and `:`;
  - every other line is appended to the open message;
  - at the end of input the open message is handed over once.

  Message indices come from a counter that every message shares.

Files:

- `wrappers.dfy`: `Option` and `Result`.
- `strings.dfy`: the Python `str` operations the parser uses. These are `strip`,
  `lstrip`, `split(sep, 1)` and `in`.
- `lines.dfy`: line kinds and the classifier. The regex search is written out as
  a leftmost-longest search with greedy backtracking.
- `messages.dfy`: `Message` as a class with a mutable line list. `_msgIndex` is
  modelled as a `MessageCounter` object.
- `chat_parser.dfy`: the header test and split, and the pure specification of
  one step (`Step`, `Feed`), of the loop (`Loop`, `Run`) and of `parse`
  (`Parsed`). It also holds the `ChatParser` class, whose methods are proved
  against those functions.
- `chat_properties.dfy`: whole-input properties. Blank lines change nothing, one
  message is handed over per header, indices are consecutive, continuation
  lines pile up in order, and the flush happens once.
- `chat_examples.dfy`: header lines as the export writes them, and the
  `01.02.20, 08:30 - Alice: Hello` examples.

Errors are values. `MissingDelimiter(c)` stands for the `ValueError` that
unpacking `line.split(c, 1)` raises when `c` is missing. `NoOpenMessage` stands
for the `AttributeError` raised by a continuation line before any header. A step
that fails leaves no message open, and `parse` stops at the first error. The
messages handed over before the error are kept.

## Model

| member | source | states |
|---|---|---|
| Strings.LStrip | yawab.py:226 | the result is a suffix of the input; exactly the dropped characters are whitespace, and the result does not start with whitespace |
| Strings.RStrip | yawab.py:241 | the result is a prefix; exactly the dropped characters are whitespace, and the result does not end with whitespace |
| Strings.Strip | yawab.py:241 | the result is no longer than the input and neither starts nor ends with whitespace |
| Strings.StripSpec | yawab.py:241 | `strip()` removes whitespace at both ends and nothing else: the result is a slice with only whitespace before and after it |
| Strings.FindChar | yawab.py:214 | the first-occurrence search inside `split(sep, 1)`: the index found holds `c` with no `c` before it, and nothing is found exactly when `c` does not occur |
| Strings.SplitOnce | yawab.py:214 | `split(sep, 1)` fails exactly when `sep` does not occur; otherwise it cuts at the first occurrence into the part before and the part after |
| Strings.SplitOnceAt | yawab.py:218 | a separator at its first occurrence `i` gives the pieces `s[..i]` and `s[i+1..]` |
| Strings.ContainsFrom | yawab.py:145 | true exactly when `sub` occurs at index `i` or later |
| Strings.Contains | yawab.py:145 | `sub in s` is true exactly when `sub` occurs somewhere in `s` |
| Lines.WordRun | yawab.py:121 | the run of `[a-zA-Z0-9-_]` characters from `i` is maximal |
| Lines.Backtrack | yawab.py:121 | greedy backtracking finds a match starting at `b` whenever one exists within the run, and finds the longest one |
| Lines.MatchAt | yawab.py:121 | the longest match starting at `b`, or none exactly when no match starts there |
| Lines.SearchFrom | yawab.py:121 | the leftmost match at `i` or later, longest at that start; none exactly when no match starts at `i` or later |
| Lines.Search | yawab.py:121-137 | `re.search` reports the leftmost-longest match of `w+.ext`, and nothing exactly when no match exists |
| Lines.ParseLineContent | yawab.py:118-159 | the classifier never produces `Link` |
| Lines.ParseLineContentSpec | yawab.py:118-159 | each kind holds exactly when its test matches and no earlier test does: video, then voice, then image, then the marker, else text. Media lines carry their placeholder and the leftmost match as file name; skip lines carry nothing; text lines carry the input unchanged |
| Lines.MatchIsMediaToken | yawab.py:124 | a match cut out of a line is a substring of the line of the form word run, one non-newline character, extension |
| Lines.NamedTokenShape | yawab.py:132 | a reported file name is such a token of the line |
| Lines.MediaFileNameShape | yawab.py:121-142 | a media line's file name is a token `w + c + ext` of the input with its kind's extension; a line has a file name exactly when it is a video, voice or image line |
| Messages.MessageCounter.constructor | yawab.py:163 | the index counter starts at 0 |
| Messages.Message.constructor | yawab.py:165-172 | a new message takes the counter's value as index and bumps the counter by exactly one; it holds its date, time, sender and exactly one line |
| Messages.Message.AddAdditionalLine | yawab.py:174-175 | appends the line at the end and changes nothing else: index, fields and earlier lines stay |
| Parser.TimestampAt | yawab.py:186 | the timestamp regex `\d{2}.\d{2}.\d{2},\s\d{2}:\d{2}\s-\s` matching at position `i`, the unescaped dots as any character but a newline; its meaning as a search is stated by `Parser.IsHeaderSpec` |
| Parser.TimestampFrom | yawab.py:204 | `re.search` with the timestamp regex, scanning from position `i`; stated by `Parser.TimestampFromSpec` |
| Parser.IsHeader | yawab.py:204 | the test `re.search(_timestampRegex, line)` that decides whether a line starts a new message; stated by `Parser.IsHeaderSpec` |
| Parser.IsBlank | yawab.py:244 | the test `line in ["", "\n", "\r\n", "\r"]` that skips a stripped line; `ParserProperties.StrippedBlankIsEmpty` shows only `""` can occur |
| Parser.TimestampFromSpec | yawab.py:204 | scanning from `i` finds the timestamp exactly when it matches at some position `j >= i` |
| Parser.IsHeaderSpec | yawab.py:186 | a line is a header exactly when the 18-character timestamp pattern matches at some position |
| Parser.SplitHeader | yawab.py:214-226 | the split fails only with a missing delimiter, and fails on `,` exactly when the line has no comma |
| Parser.DelimitedAtSplits | yawab.py:214-226 | with the first `,`, the first `-` after it and the first `:` after that at `c`, `m`, `k`, the split succeeds with the trimmed pieces between them |
| Parser.SplitHeaderFoundDelimiters | yawab.py:214-223 | a successful split has delimiters at such positions |
| Parser.SplitHeaderSpec | yawab.py:214-226 | the split succeeds exactly when a `,`, then a `-`, then a `:` occur; the date, time and sender are the stripped pieces between the first of each, and the text is the rest after the `:` with leading whitespace removed |
| Parser.HeaderSplitOnlyFailsOnColon | yawab.py:214-223 | on a header line the `,` and `-` splits cannot fail (the timestamp supplies both), so only a missing `:` is an error |
| Parser.Step | yawab.py:202-233 | one `process_line` step keeps "an open message has a line and an already-issued index" and "the open message holds the last index issued". An error leaves no message open. The step hands over the open message exactly when the line is a header, before the split |
| Parser.StepHeader | yawab.py:204-229 | a header that splits hands over the previous message. It opens a message with the counter's value, the header's fields and its classified text as the only line, and bumps the counter |
| Parser.Feed | yawab.py:239-247 | a line that is blank after `strip()` changes nothing; the invariants of `Step` are kept |
| Parser.Loop | yawab.py:239-247 | the loop hands over at most one message per input line |
| Parser.LoopKeepsStateOk | yawab.py:239-247 | a loop whose step keeps the state invariant and closes the message on error does the same over any input |
| Parser.Run | yawab.py:239-247 | the loop of `parse` keeps the state invariant, and after an error no message is open |
| Parser.Parsed | yawab.py:235-253 | after `parse` no message is open; the error is the loop's, and the loop's output is a prefix of the result |
| Parser.RunOneMore | yawab.py:239-247 | a run of the first `i + 1` lines is the run of the first `i` lines followed by one `Feed` |
| Parser.RunStopsAtError | yawab.py:239-247 | once a prefix fails, the whole run gives that prefix's result |
| Parser.ChatParser.constructor | yawab.py:188-189 | a new parser has no open message and shares the given counter |
| Parser.ChatParser.ProcessLine | yawab.py:202-233 | keeps the class invariant (the open message has a line and holds the last index the shared counter issued); the new parser state, the error and the handed-over message are those of `Step`. A header hands over the old message object itself; a new message is a fresh object |
| Parser.ChatParser.FeedLine | yawab.py:239-247 | strip, skip blank lines, else `ProcessLine`; the result is that of `Feed` |
| Parser.ChatParser.ParseLines | yawab.py:239-247 | the loop over all lines gives exactly `Run` of the state before: the same messages handed over, the same error, the same final state |
| Parser.ChatParser.Parse | yawab.py:235-253 | `parse` gives exactly `Parsed`. It ends with no open message and the invariant kept |
| ParserProperties.StrippedBlankIsEmpty | yawab.py:241-245 | after `strip()` the only blank line left is the empty one; `"\n"`, `"\r\n"` and `"\r"` cannot occur |
| ParserProperties.StepErrorCases | yawab.py:204-233 | a step fails with no open message exactly on a continuation line while nothing is open. A header fails only on a missing `:`, and a step without error leaves a message open |
| ParserProperties.LoopAppend | yawab.py:239-247 | running `a + b` is running `a`, then, unless it failed, `b` from where `a` stopped, with the outputs concatenated |
| ParserProperties.EmittedOnlyGrows | yawab.py:239-247 | messages handed over stay handed over: the output on a prefix of the input is a prefix of the output |
| ParserProperties.NonBlank | yawab.py:243-245 | keeps only lines that are not blank after `strip()` |
| ParserProperties.LoopIgnoresBlankLines | yawab.py:243-245 | for a step that leaves blank lines alone, the loop over the input equals the loop over its non-blank lines |
| ParserProperties.BlankLinesChangeNothing | yawab.py:239-253 | the loop and `parse`, flush included, give the same result on the input and on its non-blank lines |
| ParserProperties.CountHeaders | yawab.py:204 | the number of header lines is at most the number of lines |
| ParserProperties.HeaderIsNotBlank | yawab.py:244 | a header line is never blank |
| ParserProperties.StepCountsHeaders | yawab.py:204-233 | a `process_line` step without error hands over one message and opens one on a header line; other lines do neither |
| ParserProperties.FeedCountsHeaders | yawab.py:204-233 | a step without error hands over one message and opens one on a header line; other lines do neither |
| ParserProperties.LoopCountsHeaders | yawab.py:239-247 | without error, messages handed over plus the one open equal the header lines plus the one open at the start |
| ParserProperties.ParsedCountsHeaders | yawab.py:235-253 | a `parse` without error hands over exactly one message per header line, plus the one open at the start |
| ParserProperties.FlushOnce | yawab.py:249-253 | without an error, `parse` hands over the loop's messages plus the open one, once. A second end of input, with no more lines, hands over nothing |
| ParserProperties.StepNumbersInOrder | yawab.py:165-167 | from a state whose open message holds the latest index, a step hands over only that message and keeps the property. The counter moves by exactly the messages opened |
| ParserProperties.FeedNumbersInOrder | yawab.py:165-167 | the same for one line of the `parse` loop |
| ParserProperties.LoopNumbersMessages | yawab.py:239-247 | over any input, the messages handed over carry the consecutive indices `base`, `base + 1`, ..., and the open one carries the next |
| ParserProperties.ParsedIndicesConsecutive | yawab.py:235-253 | from a parser with no open message, `parse` hands over indices `next`, `next + 1`, ... in order, with no gaps; the counter ends one past the last |
| ParserProperties.ClassifiedCount | yawab.py:233 | continuation lines add one classified line per non-blank input line |
| ParserProperties.FeedAppendsContinuations | yawab.py:231-233 | while a message is open, a line without a timestamp appends its classification to it and hands over nothing |
| ParserProperties.LoopAppendsContinuations | yawab.py:231-233 | lines without a timestamp are appended, in input order, to the open message. Nothing is handed over and the counter does not move |
| ParserProperties.FeedHeader | yawab.py:204-229 | a raw line whose stripped form is a splitting header opens a message from it and hands over the previous one |
| ParserProperties.FeedOfHeader | yawab.py:204-229 | the same, from a state with nothing open |
| ParserProperties.FeedIsStep | yawab.py:239-247 | a line that is not blank after `strip()` goes to `process_line` |
| ParserProperties.LoopOpensThenAppends | yawab.py:202-233 | a header that opens a message, then lines without a timestamp, leave one message open. Its lines are the first line followed by the continuations in order |
| ParserProperties.RunHeaderThenContinuations | yawab.py:202-247 | the loop over a header and its continuation lines leaves that one message open, with all its lines in order |
| ParserProperties.HeaderThenContinuations | yawab.py:202-253 | a header followed by N non-blank continuation lines to the end of input, from a parser with nothing open, gives exactly one message with N + 1 lines, in input order |
| ParserProperties.FlushOpenOnly | yawab.py:249-253 | a loop that ends with one message open and none handed over makes `parse` hand over exactly that message |
| ParserProperties.LoopClosedByNext | yawab.py:204-233 | from any state, a header, continuation lines and a next line that hands over what is open: the handed-over messages are the one open before the header, if any, then the header's message with the continuations appended in order |
| ParserProperties.FeedOfHeaderHandsOver | yawab.py:204-211 | a header line that splits hands over whatever message is open, from any state, without error |
| ParserProperties.FeedOfHeaderOpens | yawab.py:204-229 | a header line that splits, from any state, opens a message with the counter's value, the header's fields and its classified text |
| ParserProperties.NextHeaderClosesMessage | yawab.py:204-233 | after any prefix that parsed without error, a header, N continuation lines and the next header hand over the message open after the prefix, if any, and then one message with the counter's value, the header's fields and N + 1 lines: the header's text and then the non-blank continuation lines in order |
| ParserProperties.LoopOpensFromAny | yawab.py:204-247 | from any state, a line that opens a message and then continuation lines hand over the message open before, if any, and leave the new one open with the continuations appended in order and the counter one further |
| ParserProperties.LoopOpensAfterPrefix | yawab.py:240-247 | after any prefix that ran without error, the same holds for the whole loop: the prefix's output, then the message open after it, and the new message left open |
| ParserProperties.LastMessageFlushed | yawab.py:202-253 | after any prefix that parsed without error, a header and N continuation lines to the end of input make `parse` hand over the prefix's output, the message open after it, if any, and then one message with the counter's value, the header's fields and N + 1 lines in order; nothing stays open and the counter is one further |
| ParserExamples.StripTrimmed | yawab.py:241 | `strip()` leaves a string without whitespace at its ends unchanged |
| ParserExamples.LStripOneSpace | yawab.py:226 | `lstrip()` removes a single leading space before non-whitespace |
| ParserExamples.StripPadded | yawab.py:219 | `strip()` removes one space on either side of a trimmed field |
| ParserExamples.HeaderLineIsHeader | yawab.py:186 | a line `date, time - ...` built from a date field and a time field is a header |
| ParserExamples.HeaderLinePieces | yawab.py:214-226 | where the `,`, `-` and `:` sit in such a line, and the pieces between them |
| ParserExamples.HeaderLineDelimited | yawab.py:214-223 | when the fields do not contain their delimiter, those are the first delimiters |
| ParserExamples.HeaderLineSplits | yawab.py:214-226 | round trip: splitting the line written for trimmed fields without their delimiters gives the fields back |
| ParserExamples.FieldsTrimmed | yawab.py:186 | date and time fields have no whitespace at their ends, and a time field has no `-` |
| ParserExamples.HeaderLineStripped | yawab.py:241 | such a line is its own `strip()` |
| ParserExamples.WellFormedHeader | yawab.py:204-226 | a well-formed header line survives `strip()`, is a header and splits into its fields |
| ParserExamples.MediaMatchHasExt | yawab.py:121 | a media match contains its extension |
| ParserExamples.PlainWordIsText | yawab.py:152-154 | a line without `4`, `s`, `j` and without the marker is a text line carrying the line verbatim |
| ParserExamples.ShortLineIsNoHeader | yawab.py:186 | a line shorter than 18 characters is not a header |
| ParserExamples.HeaderOnly | yawab.py:202-253 | a lone header line gives one message whose only line is its classified text, with the counter's value as index |
| ParserExamples.HeaderAndLine | yawab.py:202-253 | a header line and one continuation line give one message with both lines, in order |
| ParserExamples.HeaderAlone | yawab.py:202-253 | a lone well-formed header line gives one message holding exactly its fields |
| ParserExamples.HeaderThenOneLine | yawab.py:202-253 | a well-formed header line and a short line give one message with the header's text and then the short line |
| ParserExamples.TextHeaderAlone | yawab.py:202-253 | the same for a plain text: the message's only line is the text, verbatim |
| ParserExamples.TextHeaderThenLine | yawab.py:202-253 | the same with a plain continuation line: two text lines, verbatim, in order |
| ParserExamples.AliceFields | yawab.py:186 | `01.02.20`, `08:30`, `Alice`, `Hello` are well-formed header fields |
| ParserExamples.AliceLine | yawab.py:214-226 | these fields write the line `01.02.20, 08:30 - Alice: Hello` |
| ParserExamples.AliceHello | yawab.py:202-253 | `01.02.20, 08:30 - Alice: Hello` gives exactly one message: date `01.02.20`, time `08:30`, sender `Alice`, lines `[Text "Hello"]`, index the counter's value |
| ParserExamples.AliceHelloWorld | yawab.py:202-253 | that line followed by `world` gives one message with the text lines `Hello` and then `world` |
| ParserExamples.MarkerLineIsSkipped | yawab.py:144-147 | a line equal to the "attachment removed" marker gives a `Skip` line with no content, as long as the marker names no media file; no error is raised |

## Left out

- Configuration, QR-code generation, the LaTeX generator, logging, locale setup and `main` are not part of this model. The four localized strings the classifier reads from the configuration are a `Placeholders` parameter. A missing configuration key is the configuration's failure and is not modelled.
- Reading the export file is not modelled: `parse` takes the file's lines as a sequence.
- `log_message` and the warning for a removed attachment only write to the log, so they are left out.
- `process_line` and `parse` are generators in the source; the model returns the handed-over messages as a sequence. The lazy, one-message-at-a-time hand-over is not modelled.
- `Parse` and `ParseLines` collect the contents (`MessageRecord`) of the handed-over messages. `ProcessLine` and `FeedLine` return the message objects themselves.
- Python's `\d`, `\s` and `str.strip()` accept all Unicode digits and whitespace. The model uses the ASCII digits and the ten ASCII whitespace characters (tab to carriage return, 0x1C to 0x1F, space). A line made only of non-ASCII whitespace such as U+0085 or U+00A0 is skipped by the source but reaches `process_line` in the model.
- The link and phone-number handling in `parse_line_content` is a TODO in the source. `LineType.LINK` exists but is never produced, and the model keeps it that way.
- The class attribute `Message._msgIndex` is a `MessageCounter` object that the parser and every message share. Its process-wide lifetime is represented by passing the same counter. `ChatParser` assumes that no other code builds a `Message` on the shared counter while its own message is open (its invariant says the open message holds the last index issued); the source does not need this, since `process_line` never reads the counter, but its only caller never interleaves parsers.
- Lines.ParseLineContent: its own contract only rules out `Link`. The full classification is stated by `Lines.ParseLineContentSpec`.
- ParserExamples.MarkerLineIsSkipped: covers only markers that contain no media token. For any other marker, a line equal to it is classified as that media kind, as the source does.
