/**
  What a reader of the stream sees, told from the lines that were written: short lines come through
  unchanged and in order, long ones are cut and say so, and a subscriber that keeps up misses nothing.
*/
module LogStreamText {
  import opened LogStreams

  /** The lines one after the other. */
  function Joined(lines: seq<Line>): seq<Byte> {
    if lines == [] then [] else lines[0] + Joined(lines[1..])
  }

  /** These lines, each with its newline. */
  function Ended(lines: seq<Line>): seq<Byte> {
    if lines == [] then [] else lines[0] + [10] + Ended(lines[1..])
  }

  /** No line contains a newline. */
  ghost predicate Plain(lines: seq<Line>) { forall i | 0 <= i < |lines| :: 10 !in lines[i] }

  /** What is shown of one line: all of it, or its first maxLine bytes and "... [truncated]"; and a newline. */
  ghost predicate ShownAs(shown: Line, line: Line, maxLine: nat) {
    if |line| <= maxLine then shown == line + [10]
    else shown == line[..maxLine] + [46, 46, 46, 32, 91, 116, 114, 117, 110, 99, 97, 116, 101, 100, 93, 10]
  }

  lemma {:induction false} JoinedMore(a: seq<Line>, line: Line)
    ensures Joined(a + [line]) == Joined(a) + line
  {
    if a == [] {
      assert a + [line] == [line] && Joined([line]) == line + Joined([]) == line;
    } else {
      JoinedMore(a[1..], line);
      assert (a + [line])[1..] == a[1..] + [line];
      assert a[0] + (Joined(a[1..]) + line) == a[0] + Joined(a[1..]) + line;
    }
  }

  lemma {:induction false} EndedMore(a: seq<Line>, line: Line)
    ensures Ended(a + [line]) == Ended(a) + line + [10]
  {
    if a == [] {
      assert a + [line] == [line] && Ended([line]) == line + [10] + Ended([]) == line + [10];
      assert Ended(a) + line == line;
    } else {
      EndedMore(a[1..], line);
      assert (a + [line])[1..] == a[1..] + [line];
      assert a[0] + [10] + (Ended(a[1..]) + line + [10]) == a[0] + [10] + Ended(a[1..]) + line + [10];
    }
  }

  /** The retained bytes are those of the retained lines. */
  lemma {:induction false} BytesCountThem(lines: seq<Line>)
    ensures Bytes(lines) == |Joined(lines)|
  {
    if lines != [] {
      BytesCountThem(lines[1..]);
    }
  }

  /** A text is split into the lines that were written and what follows the last newline. */
  lemma {:induction false} LinesAreFound(lines: seq<Line>, rest: Line)
    requires Plain(lines) && 10 !in rest
    ensures Split(Ended(lines) + rest) == (lines, rest)
    decreases |lines|
  {
    if lines == [] {
      SplitSegment([], rest);
      assert Ended(lines) + rest == [] + rest == rest && [] + rest == rest;
    } else {
      var before, last := lines[..|lines| - 1], lines[|lines| - 1];
      LinesAreFound(before, last);
      assert before + [last] == lines;
      EndedMore(before, last);
      SplitNewline(Ended(before) + last);
      SplitSegment(Ended(lines), rest);
      assert [] + rest == rest;
    }
  }

  lemma {:induction false} AsManyAreShown(lines: seq<Line>, maxLine: nat)
    ensures |RenderAll(lines, maxLine)| == |lines|
    decreases |lines|
  {
    if lines != [] {
      AsManyAreShown(lines[..|lines| - 1], maxLine);
    }
  }

  lemma {:induction false} EachIsRendered(lines: seq<Line>, maxLine: nat, i: nat)
    requires i < |lines| == |RenderAll(lines, maxLine)|
    ensures ShownAs(RenderAll(lines, maxLine)[i], lines[i], maxLine)
    decreases |lines|
  {
    var before := lines[..|lines| - 1];
    AsManyAreShown(before, maxLine);
    if i < |before| {
      EachIsRendered(before, maxLine, i);
    } else if |lines[i]| > maxLine {
      assert MARKER + [10] == [46, 46, 46, 32, 91, 116, 114, 117, 110, 99, 97, 116, 101, 100, 93, 10];
      assert lines[i][..maxLine] + MARKER + [10] == lines[i][..maxLine] + (MARKER + [10]);
    }
  }

  /** Main result: for every line that was written one is shown, in order, and an unfinished one at the close. */
  lemma {:induction false} EveryLineIsShown(lines: seq<Line>, rest: Line, closed: bool, maxLine: nat, i: nat)
    requires Plain(lines) && 10 !in rest && i < |Published(Ended(lines) + rest, closed, maxLine)|
    ensures |Published(Ended(lines) + rest, closed, maxLine)| == |lines| + if closed && rest != [] then 1 else 0
    ensures ShownAs(Published(Ended(lines) + rest, closed, maxLine)[i], if i < |lines| then lines[i] else rest, maxLine)
  {
    LinesAreFound(lines, rest);
    var all := lines + if closed && rest != [] then [rest] else [];
    assert RenderAll(all, maxLine) == Published(Ended(lines) + rest, closed, maxLine) by {
      if closed && rest != [] {
        assert all[..|lines|] == lines;
      } else {
        assert all == lines;
      }
    }
    AsManyAreShown(all, maxLine);
    EachIsRendered(all, maxLine, i);
  }

  /** Every text ends in what it says: it is its lines, each with a newline, and the rest. */
  lemma {:induction false} SplitLosesNothing(text: seq<Byte>)
    ensures Plain(Split(text).0) && 10 !in Split(text).1 && text == Ended(Split(text).0) + Split(text).1
  {
    if text != [] {
      var before, last := text[..|text| - 1], text[|text| - 1];
      SplitLosesNothing(before);
      assert text == before + [last];
      if last == 10 {
        EndedMore(Split(before).0, Split(before).1);
      } else {
        assert Ended(Split(before).0) + (Split(before).1 + [last]) == Ended(Split(before).0) + Split(before).1 + [last];
      }
    }
  }

  lemma {:induction false} ShortLinesAreUnchanged(lines: seq<Line>, maxLine: nat)
    requires forall i | 0 <= i < |lines| :: |lines[i]| <= maxLine
    ensures Joined(RenderAll(lines, maxLine)) == Ended(lines)
    decreases |lines|
  {
    if lines != [] {
      var before, last := lines[..|lines| - 1], lines[|lines| - 1];
      ShortLinesAreUnchanged(before, maxLine);
      JoinedMore(RenderAll(before, maxLine), Render(last, maxLine));
      EndedMore(before, last);
      assert before + [last] == lines;
      assert Ended(before) + (last + [10]) == Ended(before) + last + [10];
    }
  }

  /** Main result: if no line is too long, the bytes published are the bytes written, up to the last newline. */
  lemma {:induction false} NothingIsAltered(text: seq<Byte>, maxLine: nat)
    requires forall i | 0 <= i < |Split(text).0| :: |Split(text).0[i]| <= maxLine
    ensures text == Joined(Published(text, false, maxLine)) + Split(text).1 && 10 !in Split(text).1
  {
    SplitLosesNothing(text);
    ShortLinesAreUnchanged(Split(text).0, maxLine);
    NothingMore(RenderAll(Split(text).0, maxLine));
  }

  /** A subscriber's channel holds the newest lines, and it loses one only when it is full: with room for the news it hears all of it. */
  lemma NothingIsMissed(channels: map<nat, seq<Line>>, subscribers: set<nat>, news: seq<Line>, room: nat, id: nat)
    requires id in channels && id in subscribers
    ensures var all, heard := channels[id] + news, Heard(channels, subscribers, news, room)[id];
            && (heard == all <==> |channels[id]| + |news| <= room)
            && (heard != all ==> |heard| == room && heard == all[|all| - room..])
  {
    var all := channels[id] + news;
    assert Heard(channels, subscribers, news, room)[id] == Newest(all, room);
    if |all| > room {
      assert |Newest(all, room)| == room != |all|;
    }
  }
}
