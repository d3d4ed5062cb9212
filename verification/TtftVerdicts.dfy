/**
 What makes the dispatcher commit to a stream or give it up, in terms of the objects that
 the stream carries.
 */
module TtftVerdicts {
  import opened Text
  import opened Json
  import opened Ttft

  // ---------------------------------------------------------------------------
  // Lines and payloads
  // ---------------------------------------------------------------------------

  // The text is these lines, joined by line breaks.
  predicate IsLines(s: string, lines: seq<string>)
    decreases |lines|
  {
    && lines != [] && OneLine(lines[0])
    && (if |lines| == 1 then s == lines[0]
        else
          var n := |lines[0]|;
          n < |s| && s[..n] == lines[0] && s[n] == '\n' && IsLines(s[n + 1..], lines[1..]))
  }

  lemma {:induction false} SplitIsLines(s: string)
    ensures IsLines(s, Split(s))
    decreases |s|
  {
    var i := LineEnd(s);
    if i < |s| {
      SplitIsLines(s[i + 1..]);
      assert Split(s)[1..] == Split(s[i + 1..]);
    } else {
      assert s[..i] == s;
    }
  }

  lemma {:induction false} LinesAreSplit(s: string, lines: seq<string>)
    requires IsLines(s, lines)
    ensures lines == Split(s)
    decreases |lines|
  {
    var n := |lines[0]|;
    assert LineEnd(s) == n by {
      LineEndOf(s, n);
    }
    if |lines| == 1 {
      assert s[..n] == s;
    } else {
      LinesAreSplit(s[n + 1..], lines[1..]);
      assert lines == [lines[0]] + lines[1..];
    }
  }

  // ---------------------------------------------------------------------------
  // Objects
  // ---------------------------------------------------------------------------

  predicate HasChoices(raw: map<string, Json>) {
    Field(raw, "choices").Arr? && Field(raw, "choices").items != []
  }

  function FirstChoice(raw: map<string, Json>): Json
    requires HasChoices(raw)
  {
    Field(raw, "choices").items[0]
  }

  // The first choice brings content, tool calls, or a reason to finish. One that names its
  // role brings nothing yet unless it brings content or tool calls.
  predicate ChoiceBrings(raw: map<string, Json>) {
    HasChoices(raw) && FirstChoice(raw).Obj? &&
    var ch := FirstChoice(raw);
    var delta := Get(ch, "delta");
    || StrOf(Get(delta, "content")) != ""
    || Get(delta, "tool_calls") != Null
    || (Get(delta, "role") == Null
        && (StrOf(Get(Get(ch, "message"), "content")) != "" || StrOf(Get(ch, "finish_reason")) !in {"", "null"}))
  }

  // The first choice brings nothing, and the rest of the object is not looked at.
  predicate ChoiceHolds(raw: map<string, Json>) {
    HasChoices(raw) && !ChoiceBrings(raw)
    && (!FirstChoice(raw).Obj? || Get(Get(FirstChoice(raw), "delta"), "role") != Null)
  }

  // The object carries a token, or ends the message.
  predicate Commits(raw: map<string, Json>) {
    && Field(raw, "error") == Null
    && (|| ChoiceBrings(raw)
        || (!ChoiceHolds(raw) &&
            var delta := Field(raw, "delta");
            || (Field(raw, "type") == Str("content_block_delta")
                && (StrOf(Get(delta, "text")) != "" || Get(delta, "partial_json") != Null
                    || Get(delta, "thinking") != Null))
            || Field(raw, "type") == Str("message_stop")
            || Field(raw, "type") == Str("message_delta")))
  }

  // The object reports an error.
  predicate Fails(raw: map<string, Json>) {
    || Field(raw, "error") != Null
    || (!ChoiceBrings(raw) && !ChoiceHolds(raw) && Field(raw, "type") == Str("error"))
  }

  // The data of a line, and what it says.
  predicate IsData(line: string) {
    |Trim(line)| >= 5 && Trim(line)[..5] == "data:"
  }

  function DataIn(line: string): string
    requires IsData(line)
  {
    Trim(Trim(line)[5..])
  }

  predicate LineCommits(parse: Parser, line: string) {
    IsData(line) &&
    var data := DataIn(line);
    data == "[DONE]" || (data != "" && parse(data).Some? && Commits(parse(data).value))
  }

  predicate LineFails(parse: Parser, line: string) {
    IsData(line) &&
    var data := DataIn(line);
    data != "[DONE]" && data != "" && parse(data).Some? && Fails(parse(data).value)
  }

  lemma {:induction false} ObjectSays(raw: map<string, Json>)
    ensures ObjectVerdict(raw) == if Commits(raw) then Committed else if Fails(raw) then Failed else Wait
    ensures !(Commits(raw) && Fails(raw))
  {
  }

  lemma {:induction false} LineSays(parse: Parser, line: string)
    ensures LineVerdict(parse, line)
         == if LineCommits(parse, line) then Committed else if LineFails(parse, line) then Failed else Wait
    ensures !(LineCommits(parse, line) && LineFails(parse, line))
  {
    assert "data:" <= Trim(line) <==> IsData(line);
    if IsData(line) && parse(DataIn(line)).Some? {
      ObjectSays(parse(DataIn(line)).value);
    }
  }

  predicate Says(parse: Parser, line: string) {
    LineCommits(parse, line) || LineFails(parse, line)
  }

  // The i-th line is the first that says something.
  predicate FirstSaying(parse: Parser, lines: seq<string>, i: nat) {
    i < |lines| && Says(parse, lines[i]) && forall j :: 0 <= j < i ==> !Says(parse, lines[j])
  }

  // The first line of the text that says something commits.
  ghost predicate FirstCommits(parse: Parser, s: string) {
    exists lines: seq<string>, i: nat ::
      IsLines(s, lines) && FirstSaying(parse, lines, i) && LineCommits(parse, lines[i])
  }

  // The first line of the text that says something fails.
  ghost predicate FirstFails(parse: Parser, s: string) {
    exists lines: seq<string>, i: nat ::
      IsLines(s, lines) && FirstSaying(parse, lines, i) && LineFails(parse, lines[i])
  }

  lemma {:induction false} FirstDecisiveAt(parse: Parser, lines: seq<string>, i: nat)
    requires FirstSaying(parse, lines, i)
    ensures FirstDecisive(Judge(parse), lines) == if LineCommits(parse, lines[i]) then Committed else Failed
  {
    LineSays(parse, lines[0]);
    if i > 0 {
      var rest := lines[1..];
      assert FirstSaying(parse, rest, i - 1) by {
        assert forall j :: 0 <= j < |rest| ==> rest[j] == lines[j + 1];
      }
      FirstDecisiveAt(parse, rest, i - 1);
    }
  }

  lemma {:induction false} SomeDecides(parse: Parser, lines: seq<string>) returns (i: nat)
    requires FirstDecisive(Judge(parse), lines) != Wait
    ensures FirstSaying(parse, lines, i)
  {
    LineSays(parse, lines[0]);
    if Says(parse, lines[0]) {
      i := 0;
    } else {
      var rest := lines[1..];
      var k := SomeDecides(parse, rest);
      i := k + 1;
      forall j | 0 <= j < i
        ensures !Says(parse, lines[j])
      {
        assert j > 0 ==> lines[j] == rest[j - 1];
      }
    }
  }

  /** What has been read decides as its first line with a decisive object does: it commits
      for a token or the end of a message, and fails exactly for an error. */
  lemma {:induction false} InspectsByObjects(parse: Parser, s: string)
    ensures Inspect(Judge(parse), s) == Committed <==> FirstCommits(parse, s)
    ensures Inspect(Judge(parse), s) == Failed <==> FirstFails(parse, s)
  {
    var lines := Split(s);
    SplitIsLines(s);
    if Inspect(Judge(parse), s) != Wait {
      var i := SomeDecides(parse, lines);
      FirstDecisiveAt(parse, lines, i);
      LineSays(parse, lines[i]);
    }
    if FirstCommits(parse, s) {
      var ls, i: nat :| IsLines(s, ls) && FirstSaying(parse, ls, i) && LineCommits(parse, ls[i]);
      LinesAreSplit(s, ls);
      FirstDecisiveAt(parse, ls, i);
    }
    if FirstFails(parse, s) {
      var ls, i: nat :| IsLines(s, ls) && FirstSaying(parse, ls, i) && LineFails(parse, ls[i]);
      LinesAreSplit(s, ls);
      FirstDecisiveAt(parse, ls, i);
      LineSays(parse, ls[i]);
    }
  }

  // ---------------------------------------------------------------------------
  // Whole streams
  // ---------------------------------------------------------------------------

  // The stream goes on behind a failure that shows only in the last 8191 bytes of a megabyte.
  ghost predicate FailsLate(parse: Parser, s: string) {
    && |s| > 1_048_576 && FirstFails(parse, s[..1_048_576])
    && !FirstFails(parse, s[..1_040_385]) && !FirstCommits(parse, s[..1_040_385])
  }

  // The megabyte that is looked at, or the whole text, commits or at least does not fail.
  ghost predicate CommitsAsAWhole(parse: Parser, s: string, end: Status) {
    if |s| > 1_048_576 then !FirstFails(parse, s[..1_048_576])
    else
      || FirstCommits(parse, s)
      || (!FirstFails(parse, s) && end == Eof && exists i: nat :: i <= |s| && "data:" <= s[i..])
  }

  /** Carried to whole streams: a well-formed stream, however it is cut into reads, is
      committed to if its first decisive object is a token or the end of a message, and
      given up if that is an error; one without any is committed to when it ends in order
      and has data. */
  lemma {:induction false} AwaitsByObjects(parse: Parser, d: seq<Piece>)
    requires ParsesObjects(parse) && Delivery(d) && WellFormed(parse, Bytes(d)) && !FailsLate(parse, Bytes(d))
    ensures Await(Inspector(parse), "", d).Commit? <==> CommitsAsAWhole(parse, Bytes(d), End(d))
  {
    var s := Bytes(d);
    ChunkingIrrelevantExactly(parse, s, End(d));
    ContainsAt(s, "data:");
    if |s| > 1_048_576 {
      InspectsByObjects(parse, s[..1_048_576]);
      InspectsByObjects(parse, s[..1_040_385]);
    } else {
      InspectsByObjects(parse, s);
    }
  }

  lemma {:induction false} AwaitBlames(inspect: string -> Verdict, s: string, buf: string, pieces: seq<Piece>)
    requires Delivery(pieces) && buf + Bytes(pieces) == s && inspect(buf) == Wait && Stable(inspect, s)
    ensures var answer := Await(inspect, buf, pieces);
      answer.Retry? ==> (answer.cause.ReadError? <==> End(pieces) == Broken && inspect(s) == Wait)
    decreases Size(pieces)
  {
    var (data, status, rest) := Take(pieces, READ_SIZE);
    var buf' := buf + data;
    TakeConserves(pieces, READ_SIZE);
    assert s == buf' + Bytes(rest);
    assert s[..|buf|] == buf && s[..|buf'|] == buf' && s[..|s|] == s;
    if inspect(buf') != Wait {
      WaitsNoLonger(inspect, s, |buf'|, |s|);
    } else if status == More {
      if data == "" || |buf'| <= MAX_TTFT_BUF {
        AwaitBlames(inspect, s, buf', rest);
      }
    } else {
      assert s == buf';
    }
  }

  /** A stream that is given up without an error of its own, and that broke off, is blamed
      on the read. */
  lemma {:induction false} BlamedOnRead(parse: Parser, d: seq<Piece>)
    requires ParsesObjects(parse) && Delivery(d) && WellFormed(parse, Bytes(d))
    requires Await(Inspector(parse), "", d).Retry?
    ensures Await(Inspector(parse), "", d).cause.ReadError?
       <==> End(d) == Broken && !FirstFails(parse, Bytes(d)) && !FirstCommits(parse, Bytes(d))
  {
    var s := Bytes(d);
    VerdictPersists(parse, s);
    NothingReadYet(parse);
    assert "" + s == s;
    AwaitBlames(Inspector(parse), s, "", d);
    InspectsByObjects(parse, s);
  }
}
