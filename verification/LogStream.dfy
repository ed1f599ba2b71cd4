/**
  The bounded log stream.  It is written to in arbitrary pieces and cuts, counts and
  drops as it goes; what it retains is a simple function of all bytes written so far.
*/
module LogStreams {
  import opened Text

  type Byte = x: int | 0 <= x < 256

  type Line = seq<Byte>

  const NEWLINE: Byte := 10

  /** "... [truncated]" */
  const MARKER: Line := [46, 46, 46, 32, 91, 116, 114, 117, 110, 99, 97, 116, 101, 100, 93]

  /////////////// The simple specification ///////////////

  /** The complete lines of a text, without their newlines, and what follows the last newline. */
  function Split(text: seq<Byte>): (seq<Line>, Line) {
    if text == [] then ([], [])
    else
      var (lines, rest) := Split(text[..|text| - 1]);
      var last := text[|text| - 1];
      if last == NEWLINE then (lines + [rest], []) else (lines, rest + [last])
  }

  /** A line as published: cut at maxLine bytes and marked when it was longer. */
  function Render(line: Line, maxLine: nat): Line {
    (if |line| <= maxLine then line else line[..maxLine] + MARKER) + [NEWLINE]
  }

  function RenderAll(lines: seq<Line>, maxLine: nat): seq<Line> {
    if lines == [] then [] else RenderAll(lines[..|lines| - 1], maxLine) + [Render(lines[|lines| - 1], maxLine)]
  }

  function Bytes(lines: seq<Line>): nat {
    if lines == [] then 0 else |lines[0]| + Bytes(lines[1..])
  }

  predicate Fits(lines: seq<Line>, capacity: nat, maxBytes: nat) {
    |lines| <= capacity && Bytes(lines) <= maxBytes
  }

  /** kept is the longest suffix of lines that fits both limits. */
  ghost predicate LongestFit(kept: seq<Line>, lines: seq<Line>, capacity: nat, maxBytes: nat) {
    exists n | 0 <= n <= |lines| :: FitFrom(kept, lines, n, capacity, maxBytes)
  }

  ghost predicate FitFrom(kept: seq<Line>, lines: seq<Line>, n: nat, capacity: nat, maxBytes: nat)
    requires n <= |lines|
  {
    kept == lines[n..] && Fits(kept, capacity, maxBytes)
    && forall m | 0 <= m < n :: !FitsFrom(lines, m, capacity, maxBytes)
  }

  predicate FitsFrom(lines: seq<Line>, m: nat, capacity: nat, maxBytes: nat)
    requires m <= |lines|
  {
    Fits(lines[m..], capacity, maxBytes)
  }

  predicate FitsWith(lines: seq<Line>, m: nat, line: Line, capacity: nat, maxBytes: nat)
    requires m <= |lines|
  {
    Fits(lines[m..] + [line], capacity, maxBytes)
  }

  lemma LongestFitIsUnique(a: seq<Line>, b: seq<Line>, lines: seq<Line>, capacity: nat, maxBytes: nat)
    requires LongestFit(a, lines, capacity, maxBytes) && LongestFit(b, lines, capacity, maxBytes)
    ensures a == b
  {
    var m :| 0 <= m <= |lines| && FitFrom(a, lines, m, capacity, maxBytes);
    var n :| 0 <= n <= |lines| && FitFrom(b, lines, n, capacity, maxBytes);
    assert FitsFrom(lines, m, capacity, maxBytes) && FitsFrom(lines, n, capacity, maxBytes);
  }

  lemma {:induction false} BytesAppend(a: seq<Line>, b: seq<Line>)
    ensures Bytes(a + b) == Bytes(a) + Bytes(b)
  {
    if a == [] {
      assert a + b == b;
    } else {
      BytesAppend(a[1..], b);
      assert (a + b)[1..] == a[1..] + b;
    }
  }

  /** Splitting does not care where a segment without a newline was cut. */
  lemma {:induction false} SplitSegment(text: seq<Byte>, segment: seq<Byte>)
    requires NEWLINE !in segment
    ensures Split(text + segment) == (Split(text).0, Split(text).1 + segment)
  {
    if segment == [] {
      assert text + segment == text && Split(text).1 + segment == Split(text).1;
    } else {
      var k := |segment| - 1;
      SplitSegment(text, segment[..k]);
      assert (text + segment)[..|text| + k] == text + segment[..k];
      assert Split(text).1 + segment[..k] + [segment[k]] == Split(text).1 + segment;
    }
  }

  lemma SplitNewline(text: seq<Byte>)
    ensures Split(text + [NEWLINE]) == (Split(text).0 + [Split(text).1], [])
  {
    assert (text + [NEWLINE])[..|text|] == text;
  }

  /** Everything published so far: the complete lines, and at Close the unfinished one if it has bytes. */
  function Published(text: seq<Byte>, closed: bool, maxLine: nat): seq<Line> {
    RenderAll(Split(text).0, maxLine) + if closed && Split(text).1 != [] then [Render(Split(text).1, maxLine)] else []
  }

  lemma PublishedSegment(text: seq<Byte>, segment: seq<Byte>, maxLine: nat)
    requires NEWLINE !in segment
    ensures Published(text + segment, false, maxLine) == Published(text, false, maxLine)
  {
    SplitSegment(text, segment);
  }

  lemma PublishedNewline(text: seq<Byte>, maxLine: nat)
    ensures Published(text + [NEWLINE], false, maxLine) == Published(text, false, maxLine) + [Render(Split(text).1, maxLine)]
  {
    SplitNewline(text);
    var lines, rest := Split(text).0, Split(text).1;
    assert (lines + [rest])[..|lines|] == lines;
    NothingMore(RenderAll(lines, maxLine));
    NothingMore(RenderAll(lines + [rest], maxLine));
  }

  lemma NothingMore(lines: seq<Line>)
    ensures lines + [] == lines
  {
  }

  /** A segment and its newline publish one more line and leave nothing unfinished. */
  lemma LineArrived(text: seq<Byte>, segment: seq<Byte>, maxLine: nat)
    requires NEWLINE !in segment
    ensures Split(text + segment + [NEWLINE]).1 == []
    ensures Published(text + segment + [NEWLINE], false, maxLine)
         == Published(text, false, maxLine) + [Render(Split(text).1 + segment, maxLine)]
  {
    SplitSegment(text, segment);
    PublishedSegment(text, segment, maxLine);
    SplitNewline(text + segment);
    PublishedNewline(text + segment, maxLine);
  }

  /////////////// Retention ///////////////

  /** Appending a line and keeping the longest suffix of what was kept is keeping the longest suffix of everything. */
  lemma ExtendFit(kept: seq<Line>, lines: seq<Line>, line: Line, n: nat, drop: nat, capacity: nat, maxBytes: nat)
    requires n <= |lines| && FitFrom(kept, lines, n, capacity, maxBytes) && drop <= |kept|
    requires forall m | 0 <= m < drop :: !FitsWith(kept, m, line, capacity, maxBytes)
    requires drop == |kept| || FitsWith(kept, drop, line, capacity, maxBytes)
    requires capacity > 0
    ensures LongestFit(if |line| <= maxBytes then kept[drop..] + [line] else [], lines + [line], capacity, maxBytes)
  {
    var all := lines + [line];
    forall m | 0 <= m < n + drop
      ensures !FitsFrom(all, m, capacity, maxBytes)
    {
      assert all[m..] == lines[m..] + [line];
      BytesAppend(lines[m..], [line]);
      if m >= n {
        assert lines[m..] == kept[m - n..] && !FitsWith(kept, m - n, line, capacity, maxBytes);
      } else {
        assert !FitsFrom(lines, m, capacity, maxBytes);
      }
    }
    if |line| <= maxBytes {
      assert all[n + drop..] == kept[drop..] + [line];
      if drop == |kept| { assert kept[drop..] + [line] == [line]; assert Bytes([line]) == |line|; }
      assert FitFrom(kept[drop..] + [line], all, n + drop, capacity, maxBytes);
    } else {
      TooLong(all, line, maxBytes, capacity);
      assert FitFrom([], all, |all|, capacity, maxBytes);
    }
  }

  lemma BytesOfOneMore(lines: seq<Line>, line: Line)
    ensures Bytes(lines + [line]) == Bytes(lines) + |line|
  {
    BytesAppend(lines, [line]);
    assert Bytes([line]) == |line|;
  }

  lemma NothingFits(lines: seq<Line>, line: Line, capacity: nat, maxBytes: nat)
    requires |line| > maxBytes && (lines == [] || Fits(lines + [line], capacity, maxBytes))
    ensures lines == []
  {
    BytesOfOneMore(lines, line);
  }

  lemma TooLong(all: seq<Line>, line: Line, maxBytes: nat, capacity: nat)
    requires |all| > 0 && all[|all| - 1] == line && |line| > maxBytes
    ensures forall m | 0 <= m < |all| :: !FitsFrom(all, m, capacity, maxBytes)
  {
    forall m | 0 <= m < |all|
      ensures !FitsFrom(all, m, capacity, maxBytes)
    {
      assert all[m..] == all[m..|all| - 1] + [line];
      BytesAppend(all[m..|all| - 1], [line]);
      assert Bytes([line]) == |line|;
    }
  }

  /////////////// Channels ///////////////

  /** The newest lines, at most `room` of them. */
  function Newest(lines: seq<Line>, room: nat): seq<Line> {
    if |lines| <= room then lines else lines[|lines| - room..]
  }

  ghost predicate Suffix(part: seq<Line>, all: seq<Line>) {
    |part| <= |all| && part == all[|all| - |part|..]
  }

  /** The channels after the stream has sent these lines to each subscriber, if nobody reads meanwhile. */
  function Heard(channels: map<nat, seq<Line>>, subscribers: set<nat>, news: seq<Line>, room: nat): map<nat, seq<Line>> {
    map id | id in channels :: if id in subscribers then Newest(channels[id] + news, room) else channels[id]
  }

  /** A channel is within its room, and unless its reader gave it up it holds the newest lines that were published. */
  ghost predicate ChannelOk(queue: seq<Line>, given: bool, shown: seq<Line>, room: nat) {
    |queue| <= room && (given || Suffix(queue, shown))
  }

  ghost predicate ChannelsFit(channels: map<nat, seq<Line>>, cancelled: set<nat>, shown: seq<Line>, room: nat) {
    forall id | id in channels :: ChannelOk(channels[id], id in cancelled, shown, room)
  }

  lemma NewestMore(queue: seq<Line>, a: seq<Line>, b: seq<Line>, room: nat)
    ensures Newest(Newest(queue + a, room) + b, room) == Newest(queue + (a + b), room)
  {
    assert queue + (a + b) == queue + a + b;
    NewestOfNewest(queue + a, b, room);
  }

  lemma NewestOfNewest(x: seq<Line>, y: seq<Line>, room: nat)
    ensures Newest(Newest(x, room) + y, room) == Newest(x + y, room)
  {
    if |x| > room {
      var k := |x| - room;
      DropFromSum(x, y, k);
      DropTwice(x + y, k, |y|);
      assert Newest(x, room) + y == (x + y)[k..];
    }
  }

  lemma DropFromSum(x: seq<Line>, y: seq<Line>, k: nat)
    requires k <= |x|
    ensures x[k..] + y == (x + y)[k..]
  {
  }

  lemma DropTwice(x: seq<Line>, i: nat, j: nat)
    requires i + j <= |x|
    ensures x[i..][j..] == x[i + j..]
  {
  }

  lemma NewestIsSuffix(queue: seq<Line>, shown: seq<Line>, news: seq<Line>, room: nat)
    requires Suffix(queue, shown)
    ensures Suffix(Newest(queue + news, room), shown + news)
  {
  }

  lemma HeardMore(channels: map<nat, seq<Line>>, subscribers: set<nat>, a: seq<Line>, b: seq<Line>, room: nat)
    ensures Heard(Heard(channels, subscribers, a, room), subscribers, b, room) == Heard(channels, subscribers, a + b, room)
  {
    forall id | id in channels && id in subscribers
      ensures Newest(Newest(channels[id] + a, room) + b, room) == Newest(channels[id] + (a + b), room)
    {
      NewestMore(channels[id], a, b, room);
    }
  }

  lemma HeardNothing(channels: map<nat, seq<Line>>, subscribers: set<nat>, room: nat)
    requires forall id | id in channels :: |channels[id]| <= room
    ensures Heard(channels, subscribers, [], room) == channels
  {
    forall id | id in channels ensures channels[id] + [] == channels[id] {
    }
  }

  lemma HeardFits(channels: map<nat, seq<Line>>, subscribers: set<nat>, cancelled: set<nat>, shown: seq<Line>,
                  news: seq<Line>, room: nat)
    requires ChannelsFit(channels, cancelled, shown, room) && channels.Keys == subscribers + cancelled
    ensures ChannelsFit(Heard(channels, subscribers, news, room), cancelled, shown + news, room)
  {
    var after := Heard(channels, subscribers, news, room);
    forall id | id in after
      ensures ChannelOk(after[id], id in cancelled, shown + news, room)
    {
      assert ChannelOk(channels[id], id in cancelled, shown, room);
      if id !in cancelled {
        NewestIsSuffix(channels[id], shown, news, room);
      }
    }
  }

  /** A send that never blocks: a full channel loses its oldest line to the new one. */
  function Offer(queue: seq<Line>, line: Line, room: nat): (q: seq<Line>)
    requires 0 < room && |queue| <= room
    ensures q == Newest(queue + [line], room)
  {
    (if |queue| < room then queue else queue[1..]) + [line]
  }

  /////////////// The stream ///////////////

  class LogStream {
    const capacity: nat
    const subscriberBuffer: nat
    const maxLineBytes: nat
    const maxBytes: nat
    var retainedBytes: int
    var lines: seq<Line>
    var partial: Line
    var truncated: bool
    var subscribers: set<nat>                // channels that the stream sends to
    var channels: map<nat, seq<Line>>        // what each channel ever made still holds
    var nextSubscriber: nat
    var closed: bool
    ghost var text: seq<Byte>                // all bytes accepted
    ghost var cancelled: set<nat>            // channels that their reader gave up

    ghost predicate Valid()
      reads this
    {
      HistoryOk() && ChannelsOk()
    }

    function Room(): nat { capacity + subscriberBuffer }

    /** All lines published so far. */
    ghost function Shown(): seq<Line>
      reads this`text, this`closed
    {
      Published(text, closed, maxLineBytes)
    }

    ghost predicate HistoryOk()
      reads this`lines, this`text, this`closed, this`retainedBytes, this`partial, this`truncated
    {
      && capacity > 0 && subscriberBuffer > 0 && maxLineBytes > 0 && maxBytes > 0
      && LongestFit(lines, Published(text, closed, maxLineBytes), capacity, maxBytes)
      && retainedBytes == Bytes(lines)
      && (!closed ==> PartialOk(partial, truncated, Split(text).1))
    }

    /** The unfinished line is held cut at maxLineBytes. */
    ghost predicate PartialOk(partial: Line, truncated: bool, rest: Line) {
      truncated == (|rest| > maxLineBytes) && partial == (if truncated then rest[..maxLineBytes] else rest)
    }

    ghost predicate ChannelsOk()
      reads this`subscribers, this`channels, this`cancelled, this`nextSubscriber, this`text, this`closed
    {
      && Named() && ChannelsFit(channels, cancelled, Shown(), Room())
      && if closed then subscribers == {} else channels.Keys == subscribers + cancelled
    }

    ghost predicate Named()
      reads this`subscribers, this`channels, this`cancelled, this`nextSubscriber
    {
      && (forall id | id in channels :: id < nextSubscriber)
      && subscribers <= channels.Keys && cancelled <= channels.Keys && subscribers !! cancelled
    }

    constructor (capacity: int, subscriberBuffer: int, maxLineBytes: int, maxBytes: int)
      ensures Valid() && text == [] && !closed && lines == [] && channels == map[]
      ensures this.capacity == if capacity > 0 then capacity else 256
      ensures this.subscriberBuffer == if subscriberBuffer > 0 then subscriberBuffer else 32
      ensures this.maxLineBytes == if maxLineBytes > 0 then maxLineBytes else 65536
      ensures this.maxBytes == if maxBytes > 0 then maxBytes else 262144
    {
      this.capacity := if capacity <= 0 then 256 else capacity;
      this.subscriberBuffer := if subscriberBuffer <= 0 then 32 else subscriberBuffer;
      this.maxLineBytes := if maxLineBytes <= 0 then 64 * 1024 else maxLineBytes;
      this.maxBytes := if maxBytes <= 0 then 256 * 1024 else maxBytes;
      retainedBytes, lines, partial, truncated, closed := 0, [], [], false, false;
      subscribers, channels, nextSubscriber, text, cancelled := {}, map[], 1, [], {};
      new;
      assert FitFrom([], Published([], false, this.maxLineBytes), 0, this.capacity, this.maxBytes);
    }

    /** appendSegmentLocked: the line in progress grows by a segment without newline. */
    method AppendSegment(segment: seq<Byte>, ghost rest: Line)
      requires PartialOk(partial, truncated, rest)
      modifies this`partial, this`truncated
      ensures PartialOk(partial, truncated, rest + segment)
    {
      if truncated || |segment| == 0 {
        if |segment| == 0 { assert rest + segment == rest; }
        return;
      }
      var remaining := maxLineBytes - |partial|;
      if remaining <= 0 {
        truncated := true;
        return;
      }
      if |segment| <= remaining {
        partial := partial + segment;
        return;
      }
      partial := partial + segment[..remaining];
      truncated := true;
    }

    /** The loop of publishLocked: the oldest lines go until the new one fits, or nothing is left. */
    method DropOldest(line: Line) returns (ghost drop: nat)
      requires capacity > 0 && retainedBytes == Bytes(lines)
      modifies this`lines, this`retainedBytes
      ensures retainedBytes == Bytes(lines) && drop <= |old(lines)| && lines == old(lines)[drop..]
      ensures forall m | 0 <= m < drop :: !FitsWith(old(lines), m, line, capacity, maxBytes)
      ensures lines == [] || Fits(lines + [line], capacity, maxBytes)
    {
      drop := 0;
      while |lines| > 0 && (|lines| >= capacity || retainedBytes + |line| > maxBytes)
        invariant 0 <= drop <= |old(lines)| && lines == old(lines)[drop..] && retainedBytes == Bytes(lines)
        invariant forall m | 0 <= m < drop :: !FitsWith(old(lines), m, line, capacity, maxBytes)
        decreases |lines|
      {
        BytesOfOneMore(lines, line);
        retainedBytes := retainedBytes - |lines[0]|;
        lines := lines[1..];
        drop := drop + 1;
      }
      BytesOfOneMore(lines, line);
    }

    /** publishLocked, first half: drop the oldest lines until the new one fits, then keep it. */
    method Retain(line: Line, ghost all: seq<Line>)
      requires capacity > 0 && LongestFit(lines, all, capacity, maxBytes) && retainedBytes == Bytes(lines)
      modifies this`lines, this`retainedBytes
      ensures LongestFit(lines, all + [line], capacity, maxBytes) && retainedBytes == Bytes(lines)
    {
      ghost var kept := lines;
      ghost var n :| 0 <= n <= |all| && FitFrom(kept, all, n, capacity, maxBytes);
      ghost var drop := DropOldest(line);
      ExtendFit(kept, all, line, n, drop, capacity, maxBytes);
      BytesOfOneMore(lines, line);
      if |line| <= maxBytes {
        lines := lines + [line];
        retainedBytes := retainedBytes + |line|;
      } else {
        NothingFits(lines, line, capacity, maxBytes);
      }
    }

    /** publishLocked, second half: a full channel gives up its oldest line, so nobody blocks. */
    method Broadcast(line: Line)
      requires capacity > 0 && forall id | id in channels :: |channels[id]| <= Room()
      modifies this`channels
      ensures channels == Heard(old(channels), subscribers, [line], Room())
    {
      channels := map id | id in channels :: if id in subscribers then Offer(channels[id], line, Room()) else channels[id];
    }

    /** publishPartialLocked: the line in progress is finished. */
    method PublishPartial(ghost rest: Line, ghost all: seq<Line>)
      requires PartialOk(partial, truncated, rest) && capacity > 0
      requires LongestFit(lines, all, capacity, maxBytes) && retainedBytes == Bytes(lines)
      requires forall id | id in channels :: |channels[id]| <= Room()
      modifies this`lines, this`retainedBytes, this`partial, this`truncated, this`channels
      ensures LongestFit(lines, all + [Render(rest, maxLineBytes)], capacity, maxBytes) && retainedBytes == Bytes(lines)
      ensures PartialOk(partial, truncated, [])
      ensures channels == Heard(old(channels), subscribers, [Render(rest, maxLineBytes)], Room())
    {
      var line := partial;
      if truncated {
        line := line + MARKER;
      }
      Retain(line + [NEWLINE], all);
      Broadcast(line + [NEWLINE]);
      partial := [];
      truncated := false;
    }

    /** The last piece of a line arrives. */
    method FinishLine(segment: seq<Byte>, ghost rest: Line, ghost all: seq<Line>)
      requires PartialOk(partial, truncated, rest) && capacity > 0
      requires LongestFit(lines, all, capacity, maxBytes) && retainedBytes == Bytes(lines)
      requires forall id | id in channels :: |channels[id]| <= Room()
      modifies this`lines, this`retainedBytes, this`partial, this`truncated, this`channels
      ensures LongestFit(lines, all + [Render(rest + segment, maxLineBytes)], capacity, maxBytes) && retainedBytes == Bytes(lines)
      ensures PartialOk(partial, truncated, [])
      ensures channels == Heard(old(channels), subscribers, [Render(rest + segment, maxLineBytes)], Room())
    {
      AppendSegment(segment, rest);
      PublishPartial(rest + segment, all);
    }

    /** The channels have heard all lines that are shown now and were not shown before. */
    twostate predicate Delivered()
      reads this
    {
      && old(Shown()) <= Shown()
      && channels == Heard(old(channels), old(subscribers), Shown()[|old(Shown())|..], Room())
    }

    /** Takes bytes in any pieces; after Close it ignores them. */
    method Write(value: seq<Byte>)
      requires Valid()
      modifies this
      ensures Valid() && closed == old(closed) && subscribers == old(subscribers) && cancelled == old(cancelled)
      ensures text == if old(closed) then old(text) else old(text) + value
      ensures Delivered()
    {
      HeardNothing(channels, subscribers, Room());
      if closed {
        return;
      }
      var rest := value;
      ghost var done: seq<Byte>, news: seq<Line> := [], [];
      while |rest| > 0
        invariant Valid() && !closed && value == done + rest && text == old(text) + done
        invariant subscribers == old(subscribers) && cancelled == old(cancelled)
        invariant Shown() == old(Shown()) + news && channels == Heard(old(channels), subscribers, news, Room())
        decreases |rest|
      {
        ghost var taken, more;
        rest, taken, more := Turn(rest);
        HeardMore(old(channels), subscribers, news, more, Room());
        Onward(old(text), done, taken, rest);
        Longer(old(Shown()), news, more);
        done, news := done + taken, news + more;
      }
    }

    /** One turn of Write's loop. */
    method Turn(rest: seq<Byte>) returns (left: seq<Byte>, ghost taken: seq<Byte>, ghost more: seq<Line>)
      requires Valid() && !closed && |rest| > 0
      modifies this
      ensures Valid() && !closed && rest == taken + left && |left| < |rest| && text == old(text) + taken
      ensures subscribers == old(subscribers) && cancelled == old(cancelled)
      ensures Shown() == old(Shown()) + more && channels == Heard(old(channels), subscribers, more, Room())
    {
      var newline := IndexByte(rest);
      if newline < |rest| {
        LineTaken(text, rest, newline);
        LineArrived(text, rest[..newline], maxLineBytes);
        ghost var line := StepLine(rest[..newline], text + rest[..newline + 1]);
        left, taken, more := rest[newline + 1..], rest[..newline + 1], [line];
      } else {
        LastPieceTaken(rest);
        HeardNothing(channels, subscribers, Room());
        NothingMore(Shown());
        StepPiece(rest);
        left, taken, more := [], rest, [];
      }
    }

    /** A whole line arrives; `whole` is the text with it. */
    method StepLine(segment: seq<Byte>, ghost whole: seq<Byte>) returns (ghost line: Line)
      requires Valid() && !closed && NEWLINE !in segment && Split(whole).1 == []
      requires Published(whole, false, maxLineBytes) == Shown() + [Render(Split(text).1 + segment, maxLineBytes)]
      modifies this
      ensures Valid() && !closed && text == whole
      ensures subscribers == old(subscribers) && cancelled == old(cancelled)
      ensures Shown() == old(Shown()) + [line] && channels == Heard(old(channels), subscribers, [line], Room())
    {
      ghost var rest, all := Split(text).1, Shown();
      line := Render(rest + segment, maxLineBytes);
      FinishLine(segment, rest, all);
      HeardFits(old(channels), subscribers, cancelled, all, [line], Room());
      text := whole;
    }

    /** The last piece of the input has no newline. */
    method StepPiece(segment: seq<Byte>)
      requires Valid() && !closed && NEWLINE !in segment
      modifies this`partial, this`truncated, this`text
      ensures Valid() && !closed && text == old(text) + segment && Shown() == old(Shown())
    {
      AppendSegment(segment, Split(text).1);
      SplitSegment(text, segment);
      PublishedSegment(text, segment, maxLineBytes);
      text := text + segment;
    }

    /** Retained history is replayed into the new channel; it always has room.  After Close the channel is born closed. */
    method Subscribe() returns (id: nat)
      requires Valid()
      modifies this`subscribers, this`channels, this`nextSubscriber
      ensures HistoryOk() && ChannelsOk() && id !in old(channels) && channels == old(channels)[id := lines]
      ensures subscribers == if closed then old(subscribers) else old(subscribers) + {id}
      ensures |lines| + subscriberBuffer <= Room()
    {
      RetainedIsSuffix(lines, Shown(), capacity, maxBytes);
      var replay := Replay(Room());
      id := Register(replay);
    }

    /** A new channel that holds these lines; it is subscribed unless the stream is closed. */
    method Register(replay: seq<Line>) returns (id: nat)
      requires ChannelsOk() && Suffix(replay, Shown()) && |replay| <= Room()
      modifies this`subscribers, this`channels, this`nextSubscriber
      ensures ChannelsOk() && id !in old(channels) && channels == old(channels)[id := replay]
      ensures subscribers == if closed then old(subscribers) else old(subscribers) + {id}
    {
      id := nextSubscriber;
      channels, nextSubscriber := channels[id := replay], id + 1;
      ChannelAdded(old(channels), cancelled, Shown(), Room(), id, replay);
      assert channels.Keys == old(channels).Keys + {id};
      if !closed {
        subscribers := subscribers + {id};
      }
    }

    /** The sends to a fresh channel with this much room; none of them blocks. */
    method Replay(room: nat) returns (output: seq<Line>)
      requires |lines| <= room
      ensures output == lines
    {
      output := [];
      for k := 0 to |lines|
        invariant output == lines[..k]
      {
        assert |output| < room;
        output := output + [lines[k]];
      }
    }

    /**
      A reader takes the oldest line of its channel.  A closed channel is drained the same way and
      then reports its end; an open one that is empty makes the reader wait.
    */
    method Receive(id: nat) returns (line: Option<Line>)
      requires ChannelsOk() && id in channels && (channels[id] != [] || id !in subscribers)
      modifies this`channels
      ensures ChannelsOk()
      ensures line == if old(channels)[id] == [] then None else Some(old(channels)[id][0])
      ensures channels == if line.None? then old(channels) else old(channels)[id := old(channels)[id][1..]]
    {
      line := None;
      if channels[id] != [] {
        assert ChannelOk(channels[id], id in cancelled, Shown(), Room());
        line := Some(channels[id][0]);
        channels := channels[id := channels[id][1..]];
        ChannelAdded(old(channels), cancelled, Shown(), Room(), id, channels[id]);
      }
    }

    /** The reader gives its channel up; what is buffered can still be drained. */
    method Cancel(id: nat)
      requires Valid()
      modifies this`subscribers, this`cancelled
      ensures Valid() && subscribers == old(subscribers) - {id}
    {
      if id in subscribers {
        subscribers, cancelled := subscribers - {id}, cancelled + {id};
        CancelledFits(channels, old(cancelled), cancelled, Shown(), Room());
      }
    }

    /** Publishes the line in progress if it has bytes. */
    method Flush() returns (ghost last: seq<Line>)
      requires Valid() && !closed
      modifies this`lines, this`retainedBytes, this`partial, this`truncated, this`channels
      ensures Published(text, true, maxLineBytes) == Shown() + last && retainedBytes == Bytes(lines)
      ensures LongestFit(lines, Shown() + last, capacity, maxBytes)
      ensures channels == Heard(old(channels), subscribers, last, Room())
    {
      ghost var rest := Split(text).1;
      last := [];
      if |partial| > 0 || truncated {
        last := [Render(rest, maxLineBytes)];
        PublishPartial(rest, Shown());
      } else {
        HeardNothing(channels, subscribers, Room());
        NothingMore(Shown());
      }
      NothingMore(RenderAll(Split(text).0, maxLineBytes));
    }

    /** Sends an unfinished line to everybody and ends every subscription; the channels can still be drained. */
    method Close()
      requires Valid()
      modifies this
      ensures Valid() && closed && text == old(text) && subscribers == {} && cancelled == old(cancelled)
      ensures Delivered() && (old(closed) ==> lines == old(lines))
    {
      if closed {
        HeardNothing(channels, subscribers, Room());
        return;
      }
      ghost var shown := Shown();
      ghost var last := Flush();
      HeardFits(old(channels), subscribers, cancelled, shown, last, Room());
      closed, subscribers := true, {};
    }
  }

  lemma RetainedIsSuffix(lines: seq<Line>, shown: seq<Line>, capacity: nat, maxBytes: nat)
    requires LongestFit(lines, shown, capacity, maxBytes)
    ensures Suffix(lines, shown) && |lines| <= capacity
  {
  }

  lemma ChannelAdded(channels: map<nat, seq<Line>>, cancelled: set<nat>, shown: seq<Line>, room: nat, id: nat, queue: seq<Line>)
    requires ChannelsFit(channels, cancelled, shown, room) && ChannelOk(queue, id in cancelled, shown, room)
    ensures ChannelsFit(channels[id := queue], cancelled, shown, room)
  {
    var after := channels[id := queue];
    forall other | other in after
      ensures ChannelOk(after[other], other in cancelled, shown, room)
    {
      if other != id { assert ChannelOk(channels[other], other in cancelled, shown, room); }
    }
  }

  lemma CancelledFits(channels: map<nat, seq<Line>>, before: set<nat>, after: set<nat>, shown: seq<Line>, room: nat)
    requires ChannelsFit(channels, before, shown, room) && before <= after
    ensures ChannelsFit(channels, after, shown, room)
  {
    forall id | id in channels
      ensures ChannelOk(channels[id], id in after, shown, room)
    {
      assert ChannelOk(channels[id], id in before, shown, room);
    }
  }

  lemma LineTaken(text: seq<Byte>, rest: seq<Byte>, newline: nat)
    requires newline < |rest| && rest[newline] == NEWLINE
    ensures text + rest[..newline] + [NEWLINE] == text + rest[..newline + 1]
    ensures rest == rest[..newline + 1] + rest[newline + 1..]
  {
  }

  lemma LastPieceTaken(rest: seq<Byte>)
    ensures rest[..|rest|] == rest && rest == rest + []
  {
  }

  lemma Onward(text: seq<Byte>, done: seq<Byte>, taken: seq<Byte>, left: seq<Byte>)
    ensures text + done + taken == text + (done + taken)
    ensures done + (taken + left) == done + taken + left
  {
  }

  lemma Longer(shown: seq<Line>, news: seq<Line>, more: seq<Line>)
    ensures shown + news + more == shown + (news + more)
  {
  }

  method IndexByte(value: seq<Byte>) returns (i: nat)
    ensures i <= |value| && NEWLINE !in value[..i] && (i < |value| ==> value[i] == NEWLINE)
  {
    i := 0;
    while i < |value| && value[i] != NEWLINE
      invariant i <= |value| && NEWLINE !in value[..i]
    {
      i := i + 1;
    }
  }

  /** Main result: what a stream shows depends on the bytes alone, not on how they were split into writes. */
  lemma SnapshotDependsOnBytes(a: LogStream, b: LogStream)
    requires a.Valid() && b.Valid() && a.capacity == b.capacity && a.maxBytes == b.maxBytes && a.maxLineBytes == b.maxLineBytes
    requires a.text == b.text && a.closed == b.closed
    ensures a.lines == b.lines
    ensures LongestFit(a.lines, Published(a.text, a.closed, a.maxLineBytes), a.capacity, a.maxBytes)
  {
    LongestFitIsUnique(a.lines, b.lines, Published(a.text, a.closed, a.maxLineBytes), a.capacity, a.maxBytes);
  }
}
