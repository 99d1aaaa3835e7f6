/**
 * Chat messages (class `Message` in yawab.py). A message is built from its
 * header line, grows only by appending continuation lines, and takes its
 * index from a counter shared by every message of the process.
 */
module Messages {
  import opened Lines

  /** The value of a message: its index, header fields and lines. */
  datatype MessageRecord = MessageRecord(index: nat, date: string, time: string, sender: string, lines: seq<Line>)

  /** The class attribute `Message._msgIndex`, as an object every message constructor updates. */
  class MessageCounter {
    var next: nat

    constructor ()
      ensures next == 0
    {
      next := 0;
    }
  }

  class Message {
    const index: nat
    const date: string
    const time: string
    const sender: string
    var lines: seq<Line>

    function Record(): MessageRecord
      reads this
    {
      MessageRecord(index, date, time, sender, lines)
    }

    /** Takes the current counter value as index, bumps the counter by one, starts with one line. */
    constructor (counter: MessageCounter, date: string, time: string, sender: string, line: Line)
      modifies counter
      ensures counter.next == old(counter.next) + 1
      ensures Record() == MessageRecord(old(counter.next), date, time, sender, [line])
    {
      index := counter.next;
      this.date := date;
      this.time := time;
      this.sender := sender;
      lines := [line];
      new;
      counter.next := counter.next + 1;
    }

    /** `add_additional_line`: appends and changes nothing else. */
    method AddAdditionalLine(line: Line)
      modifies this
      ensures Record() == old(Record()).(lines := old(lines) + [line])
    {
      lines := lines + [line];
    }
  }
}
