/**
 Peek-then-commit on a stream: how much of an upstream answer is read before the
 dispatcher commits to it, and how the bytes read so far are replayed.
 A character stands for one byte.
 */
module Ttft {
  import opened Wrappers
  import opened Text
  import opened Json

  const MAX_TTFT_BUF: nat := 0x10_0000
  const READ_SIZE: nat := 0x2000

  // json.Unmarshal into an object; None for an error.
  type Parser = string -> Option<map<string, Json>>

  datatype Verdict = Wait | Committed | Failed

  // ---------------------------------------------------------------------------
  // Inspection of a prefix
  // ---------------------------------------------------------------------------

  // What the first choice of an OpenAI chunk says; None means: look further.
  function ChoiceVerdict(raw: map<string, Json>): Option<Verdict> {
    var choices := Field(raw, "choices");
    if !choices.Arr? || choices.items == [] then None
    else
      var ch := choices.items[0];
      var delta := Get(ch, "delta");
      if !ch.Obj? then Some(Wait)
      else if delta.Obj? && StrOf(Get(delta, "content")) != "" then Some(Committed)
      else if delta.Obj? && Get(delta, "tool_calls") != Null then Some(Committed)
      else if delta.Obj? && Get(delta, "role") != Null then Some(Wait)
      else if StrOf(Get(Get(ch, "message"), "content")) != "" then Some(Committed)
      else if StrOf(Get(ch, "finish_reason")) !in {"", "null"} then Some(Committed)
      else None
  }

  function AnthropicVerdict(raw: map<string, Json>): Verdict {
    var typ := StrOf(Field(raw, "type"));
    var delta := Field(raw, "delta");
    if typ == "error" then Failed
    else if typ == "content_block_delta" then
      if StrOf(Get(delta, "text")) != "" || Get(delta, "partial_json") != Null || Get(delta, "thinking") != Null
      then Committed else Wait
    else if typ in {"message_stop", "message_delta"} then Committed
    else Wait
  }

  function ObjectVerdict(raw: map<string, Json>): Verdict {
    if Field(raw, "error") != Null then Failed
    else
      match ChoiceVerdict(raw)
      case Some(v) => v
      case None => AnthropicVerdict(raw)
  }

  function PayloadVerdict(parse: Parser, payload: string): Verdict {
    if payload == "[DONE]" then Committed
    else if payload == "" then Wait
    else
      match parse(payload)
      case None => Wait
      case Some(raw) => ObjectVerdict(raw)
  }

  // The data payload of a line; None for comments, blank lines and other fields.
  function Payload(line: string): Option<string> {
    var l := Trim(line);
    if "data:" <= l then Some(Trim(l[5..])) else None
  }

  function LineVerdict(parse: Parser, line: string): Verdict {
    match Payload(line)
    case None => Wait
    case Some(p) => PayloadVerdict(parse, p)
  }

  function LineEnd(s: string): (i: nat)
    ensures i <= |s|
    ensures i < |s| ==> s[i] == '\n'
    ensures forall k :: 0 <= k < i ==> s[k] != '\n'
  {
    if s == "" || s[0] == '\n' then 0 else LineEnd(s[1..]) + 1
  }

  // strings.Split(s, "\n")
  function Split(s: string): (lines: seq<string>)
    ensures lines != []
    decreases |s|
  {
    var i := LineEnd(s);
    if i == |s| then [s] else [s[..i]] + Split(s[i + 1..])
  }

  function FirstDecisive(judge: string -> Verdict, lines: seq<string>): Verdict {
    if lines == [] then Wait
    else
      var v := judge(lines[0]);
      if v != Wait then v else FirstDecisive(judge, lines[1..])
  }

  function Judge(parse: Parser): string -> Verdict {
    (line: string) => LineVerdict(parse, line)
  }

  // The verdict of the first decisive line of what has been read.
  function Inspect(judge: string -> Verdict, buf: string): Verdict {
    FirstDecisive(judge, Split(buf))
  }

  method DataOf(text: string) returns (p: Option<string>)
    ensures p == Payload(text)
  {
    var line := Trim(text);
    if line == "" || ":" <= line || !("data:" <= line) {
      assert ":" <= line ==> line[0] == ':';
      return None;
    }
    p := Some(Trim(line[5..]));
  }

  method InspectTTFT(parse: Parser, buf: string) returns (committed: bool, failed: bool)
    ensures committed == (Inspect(Judge(parse), buf) == Committed)
    ensures failed == (Inspect(Judge(parse), buf) == Failed)
  {
    var lines := Split(buf);
    ghost var judge := Judge(parse);
    for i := 0 to |lines|
      invariant FirstDecisive(judge, lines) == FirstDecisive(judge, lines[i..])
    {
      assert lines[i..][0] == lines[i] && lines[i..][1..] == lines[i + 1..];
      var payload := DataOf(lines[i]);
      if payload.None? {
        continue;
      }
      var v := PayloadVerdict(parse, payload.value);
      if v != Wait {
        return v == Committed, v == Failed;
      }
    }
    return false, false;
  }

  // ---------------------------------------------------------------------------
  // A verdict on a prefix persists
  // ---------------------------------------------------------------------------

  // What a JSON parser for objects guarantees: an object's text ends with its last
  // brace, and does not start like an array.
  ghost predicate ParsesObjects(parse: Parser) {
    && (forall s, t :: s <= t && Trimmed(s) && Trimmed(t) && parse(s).Some? && parse(t).Some? ==> s == t)
    && (forall s :: parse(s).Some? && s != "" ==> s[0] != '[')
  }

  // A line the vendor may send: not data, or a complete payload.
  predicate WellFormedLine(parse: Parser, line: string) {
    match Payload(line)
    case None => true
    case Some(p) => p in {"", "[DONE]"} || parse(p).Some?
  }

  predicate WellFormed(parse: Parser, s: string) {
    forall i :: 0 <= i < |Split(s)| ==> WellFormedLine(parse, Split(s)[i])
  }

  lemma {:induction false} TrimLeftPrefix(p: string, s: string)
    requires p <= s
    ensures TrimLeft(p) == "" || TrimLeft(p) <= TrimLeft(s)
  {
    if p != "" && IsSpace(p[0]) {
      TrimLeftPrefix(p[1..], s[1..]);
    }
  }

  lemma {:induction false} TrimRightPrefix(p: string, s: string)
    requires p <= s
    ensures TrimRight(p) <= TrimRight(s)
  {
    var r, t := TrimRight(p), TrimRight(s);
    TrimRightCuts(p);
    TrimRightCuts(s);
    assert r != "" ==> s[|r| - 1] == r[|r| - 1];
  }

  lemma {:induction false} TrimPrefix(p: string, s: string)
    requires p <= s
    ensures Trim(p) <= Trim(s)
  {
    TrimLeftPrefix(p, s);
    if TrimLeft(p) != "" {
      TrimRightPrefix(TrimLeft(p), TrimLeft(s));
    }
  }

  lemma {:induction false} PayloadPrefix(p: string, s: string)
    requires p <= s && Payload(p).Some?
    ensures Payload(s).Some? && Payload(p).value <= Payload(s).value
    ensures Trimmed(Payload(p).value)
  {
    TrimPrefix(p, s);
    assert Trim(p)[5..] <= Trim(s)[5..];
    TrimPrefix(Trim(p)[5..], Trim(s)[5..]);
    TrimIsTrimmed(Trim(p)[5..]);
  }

  // A decisive beginning of a well-formed payload is the whole payload.
  lemma {:induction false} DecisivePayloadIsWhole(parse: Parser, p: string, whole: string)
    requires ParsesObjects(parse) && p <= whole && Trimmed(p) && Trimmed(whole)
    requires whole in {"", "[DONE]"} || parse(whole).Some?
    requires PayloadVerdict(parse, p) != Wait
    ensures p == whole
  {
    assert p != "" && p[0] == whole[0];
  }

  // Of a stable line, a beginning that decides decides like any longer beginning.
  ghost predicate Stable(judge: string -> Verdict, line: string) {
    forall p, q :: p <= q <= line && judge(p) != Wait ==> judge(q) == judge(p)
  }

  lemma {:induction false} LineVerdictPersists(parse: Parser, p: string, q: string, line: string)
    requires ParsesObjects(parse) && WellFormedLine(parse, line) && p <= q <= line
    requires LineVerdict(parse, p) != Wait
    ensures LineVerdict(parse, q) == LineVerdict(parse, p)
  {
    PayloadPrefix(p, q);
    PayloadPrefix(q, line);
    PayloadPrefix(line, line);
    var a, b, c := Payload(p).value, Payload(q).value, Payload(line).value;
    DecisivePayloadIsWhole(parse, a, c);
    assert a == b;
  }

  lemma {:induction false} WellFormedLineIsStable(parse: Parser, line: string)
    requires ParsesObjects(parse) && WellFormedLine(parse, line)
    ensures Stable(Judge(parse), line)
  {
    forall p, q | p <= q <= line && Judge(parse)(p) != Wait
      ensures Judge(parse)(q) == Judge(parse)(p)
    {
      LineVerdictPersists(parse, p, q, line);
    }
  }

  lemma {:induction false} LineEndOf(s: string, i: nat)
    requires i <= |s| && (i < |s| ==> s[i] == '\n') && forall k :: 0 <= k < i ==> s[k] != '\n'
    ensures LineEnd(s) == i
  {
    var j := LineEnd(s);
    assert !(j < i) && !(i < j);
  }

  // The first line of a string, and of its beginnings.
  lemma {:induction false} SplitPrefix(p: string, s: string)
    requires p <= s
    ensures var i := LineEnd(s);
      if |p| <= i then Split(p) == [p] && p <= s[..i]
      else Split(p) == [s[..i]] + Split(p[i + 1..]) && p[i + 1..] <= s[i + 1..]
  {
    var i := LineEnd(s);
    if |p| <= i {
      LineEndOf(p, |p|);
    } else {
      LineEndOf(p, i);
      assert p[..i] == s[..i];
    }
  }

  ghost predicate StableLines(judge: string -> Verdict, lines: seq<string>) {
    forall i :: 0 <= i < |lines| ==> Stable(judge, lines[i])
  }

  lemma {:induction false} FirstLineDecides(judge: string -> Verdict, first: string, lines: seq<string>)
    ensures FirstDecisive(judge, [first] + lines)
         == if judge(first) != Wait then judge(first) else FirstDecisive(judge, lines)
  {
    assert ([first] + lines)[1..] == lines;
  }

  // Inspection goes line by line.
  lemma {:induction false} InspectFirst(judge: string -> Verdict, p: string, s: string)
    requires p <= s
    ensures var i := LineEnd(s);
      && (|p| <= i ==> p <= s[..i] && Inspect(judge, p) == judge(p))
      && (|p| > i ==> p[i + 1..] <= s[i + 1..])
      && (|p| > i ==>
            Inspect(judge, p) == if judge(s[..i]) != Wait then judge(s[..i]) else Inspect(judge, p[i + 1..]))
  {
    var i := LineEnd(s);
    SplitPrefix(p, s);
    if |p| <= i {
      FirstLineDecides(judge, p, []);
      assert [p] + [] == [p];
    } else {
      FirstLineDecides(judge, s[..i], Split(p[i + 1..]));
    }
  }

  lemma {:induction false} PrefixVerdictPersists(judge: string -> Verdict, p: string, q: string, s: string)
    requires StableLines(judge, Split(s)) && p <= q <= s
    requires Inspect(judge, p) != Wait
    ensures Inspect(judge, q) == Inspect(judge, p)
    decreases |s|
  {
    var i := LineEnd(s);
    InspectFirst(judge, p, s);
    InspectFirst(judge, q, s);
    SplitPrefix(s, s);
    assert Split(s)[0] == s[..i];
    assert Stable(judge, s[..i]);
    if |p| > i && judge(s[..i]) == Wait {
      assert Split(s)[1..] == Split(s[i + 1..]);
      PrefixVerdictPersists(judge, p[i + 1..], q[i + 1..], s[i + 1..]);
    }
  }

  function Inspector(parse: Parser): string -> Verdict {
    (buf: string) => Inspect(Judge(parse), buf)
  }

  /** The verdict on a beginning of a well-formed stream is the verdict on every longer
      beginning. */
  lemma {:induction false} VerdictPersists(parse: Parser, s: string)
    requires ParsesObjects(parse) && WellFormed(parse, s)
    ensures Stable(Inspector(parse), s)
  {
    forall i | 0 <= i < |Split(s)|
      ensures Stable(Judge(parse), Split(s)[i])
    {
      WellFormedLineIsStable(parse, Split(s)[i]);
    }
    forall p, q | p <= q <= s && Inspector(parse)(p) != Wait
      ensures Inspector(parse)(q) == Inspector(parse)(p)
    {
      PrefixVerdictPersists(Judge(parse), p, q, s);
    }
  }

  // ---------------------------------------------------------------------------
  // Readers
  // ---------------------------------------------------------------------------

  datatype Status = More | Eof | Broken

  datatype Piece = Piece(data: string, status: Status)

  // What a reader will deliver: pieces of any length, then its end or an error.
  predicate Delivery(pieces: seq<Piece>) {
    && pieces != []
    && (forall i :: 0 <= i < |pieces| - 1 ==> pieces[i].status == More)
    && pieces[|pieces| - 1].status != More
  }

  // A stream that will end.
  type Stream = s: seq<Piece> | Delivery(s) witness [Piece("", Eof)]

  function Bytes(pieces: seq<Piece>): string {
    if pieces == [] then "" else pieces[0].data + Bytes(pieces[1..])
  }

  function End(pieces: seq<Piece>): Status
    requires pieces != []
  {
    pieces[|pieces| - 1].status
  }

  // One Read into a buffer of `limit` bytes: the data, the status, and what is left.
  function Take(pieces: seq<Piece>, limit: nat): (r: (string, Status, seq<Piece>))
    requires Delivery(pieces)
    ensures |r.0| <= limit
    ensures Delivery(r.2) && End(r.2) == End(pieces)
    ensures r.1 != More ==> r.1 == End(pieces) && Bytes(r.2) == ""
    ensures limit > 0 && r.1 == More ==> Size(r.2) < Size(pieces)
  {
    var first := pieces[0];
    if |first.data| > limit then
      (first.data[..limit], More, [Piece(first.data[limit..], first.status)] + pieces[1..])
    else if first.status == More then
      (first.data, More, pieces[1..])
    else
      (first.data, first.status, [Piece("", first.status)])
  }

  function Size(pieces: seq<Piece>): nat {
    if pieces == [] then 0 else |pieces[0].data| + 1 + Size(pieces[1..])
  }

  /** No Read loses or invents a byte. */
  lemma {:induction false} TakeConserves(pieces: seq<Piece>, limit: nat)
    requires Delivery(pieces)
    ensures Take(pieces, limit).0 + Bytes(Take(pieces, limit).2) == Bytes(pieces)
  {
    var first := pieces[0];
    if |first.data| > limit {
      assert first.data[..limit] + first.data[limit..] == first.data;
      var rest := [Piece(first.data[limit..], first.status)] + pieces[1..];
      assert rest[1..] == pieces[1..];
      assert first.data[..limit] + (first.data[limit..] + Bytes(pieces[1..])) == first.data + Bytes(pieces[1..]);
    } else if first.status != More {
      assert pieces[1..] == [];
    }
  }

  // ---------------------------------------------------------------------------
  // Commit or retry
  // ---------------------------------------------------------------------------

  datatype Cause = UnexpectedEof | ReadError

  // Commit to `prefix` followed by whatever `rest` delivers, or try another account.
  datatype Answer = Commit(prefix: string, rest: seq<Piece>) | Retry(cause: Cause)

  function AtEnd(inspect: string -> Verdict, buf: string): Answer {
    if buf == "" || inspect(buf) == Failed then Retry(UnexpectedEof)
    else if inspect(buf) == Committed || Contains(buf, "data:") then Commit(buf, [Piece("", Eof)])
    else Retry(UnexpectedEof)
  }

  // awaitCommit from the moment it has read `buf`.
  function Await(inspect: string -> Verdict, buf: string, pieces: seq<Piece>): Answer
    requires Delivery(pieces)
    decreases Size(pieces)
  {
    var (data, status, rest) := Take(pieces, READ_SIZE);
    var buf' := buf + data;
    if data != "" && |buf'| > MAX_TTFT_BUF then Commit(buf', rest)
    else if data != "" && inspect(buf') == Failed then Retry(UnexpectedEof)
    else if data != "" && inspect(buf') == Committed then Commit(buf', rest)
    else
      match status
      case Eof => AtEnd(inspect, buf')
      case Broken => Retry(ReadError)
      case More => Await(inspect, buf', rest)
  }

  /** A committed stream is the whole original stream: what was read, then the rest, with
      the original end. */
  lemma {:induction false} CommitConserves(inspect: string -> Verdict, buf: string, pieces: seq<Piece>)
    requires Delivery(pieces)
    ensures var answer := Await(inspect, buf, pieces);
      answer.Commit? ==>
        && answer.prefix + Bytes(answer.rest) == buf + Bytes(pieces)
        && Delivery(answer.rest) && End(answer.rest) == End(pieces)
    decreases Size(pieces)
  {
    var (data, status, rest) := Take(pieces, READ_SIZE);
    TakeConserves(pieces, READ_SIZE);
    assert buf + (data + Bytes(rest)) == (buf + data) + Bytes(rest);
    if status == More {
      CommitConserves(inspect, buf + data, rest);
    }
  }

  // The answer as a function of the whole stream alone.
  predicate ShouldCommit(inspect: string -> Verdict, s: string, end: Status) {
    if |s| > MAX_TTFT_BUF then inspect(s[..MAX_TTFT_BUF]) != Failed
    else
      match inspect(s)
      case Committed => true
      case Failed => false
      case Wait => end == Eof && Contains(s, "data:")
  }

  // The failure shows only in the last 8191 bytes before the buffer limit, and the stream goes on.
  predicate FailsAtLimit(inspect: string -> Verdict, s: string) {
    && |s| > MAX_TTFT_BUF
    && inspect(s[..MAX_TTFT_BUF]) == Failed
    && inspect(s[..MAX_TTFT_BUF - READ_SIZE + 1]) == Wait
  }

  lemma {:induction false} WaitsNoLonger(inspect: string -> Verdict, s: string, m: nat, n: nat)
    requires Stable(inspect, s) && m <= n <= |s|
    ensures inspect(s[..n]) == Wait ==> inspect(s[..m]) == Wait
    ensures inspect(s[..m]) != Wait ==> inspect(s[..n]) == inspect(s[..m])
  {
    assert s[..m] <= s[..n] <= s;
  }

  lemma {:induction false} DecidedInTime(inspect: string -> Verdict, s: string, end: Status, n: nat)
    requires Stable(inspect, s) && n <= |s| && n <= MAX_TTFT_BUF
    requires inspect(s[..n]) != Wait
    ensures ShouldCommit(inspect, s, end) <==> inspect(s[..n]) == Committed
  {
    if |s| > MAX_TTFT_BUF {
      WaitsNoLonger(inspect, s, n, MAX_TTFT_BUF);
    } else {
      assert s[..|s|] == s;
      WaitsNoLonger(inspect, s, n, |s|);
    }
  }

  lemma {:induction false} OverflowCommits(inspect: string -> Verdict, s: string, end: Status, m: nat)
    requires Stable(inspect, s) && !FailsAtLimit(inspect, s)
    requires |s| > MAX_TTFT_BUF && MAX_TTFT_BUF - READ_SIZE < m <= |s|
    requires inspect(s[..m]) == Wait
    ensures ShouldCommit(inspect, s, end)
  {
    WaitsNoLonger(inspect, s, MAX_TTFT_BUF - READ_SIZE + 1, m);
  }

  lemma {:induction false} AwaitAnswers(inspect: string -> Verdict, s: string, buf: string, pieces: seq<Piece>)
    requires Stable(inspect, s) && !FailsAtLimit(inspect, s)
    requires Delivery(pieces) && buf + Bytes(pieces) == s
    requires |buf| <= MAX_TTFT_BUF && inspect(buf) == Wait
    ensures Await(inspect, buf, pieces).Commit? <==> ShouldCommit(inspect, s, End(pieces))
    decreases Size(pieces)
  {
    var (data, status, rest) := Take(pieces, READ_SIZE);
    var buf' := buf + data;
    TakeConserves(pieces, READ_SIZE);
    assert s == buf' + Bytes(rest);
    assert s[..|buf|] == buf && s[..|buf'|] == buf';
    if data != "" && |buf'| > MAX_TTFT_BUF {
      OverflowCommits(inspect, s, End(pieces), |buf|);
    } else if inspect(buf') != Wait {
      DecidedInTime(inspect, s, End(pieces), |buf'|);
    } else if status == More {
      AwaitAnswers(inspect, s, buf', rest);
    } else {
      assert s == buf';
    }
  }

  lemma {:induction false} TakeOfOne(data: string, end: Status)
    requires end != More && |data| > READ_SIZE
    ensures Take([Piece(data, end)], READ_SIZE) == (data[..READ_SIZE], More, [Piece(data[READ_SIZE..], end)])
  {
    var left := [Piece(data[READ_SIZE..], end)];
    assert left + [Piece(data, end)][1..] == left;
  }

  lemma {:induction false} AlignedReadsRetry(
    inspect: string -> Verdict, s: string, buf: string, rest: string, end: Status)
    requires Stable(inspect, s) && FailsAtLimit(inspect, s)
    requires buf + rest == s && |buf| % READ_SIZE == 0 && |buf| <= MAX_TTFT_BUF && end != More
    requires inspect(buf) == Wait
    ensures Await(inspect, buf, [Piece(rest, end)]).Retry?
    decreases |rest|
  {
    assert s[..|buf|] == buf;
    if |buf| == MAX_TTFT_BUF {
      assert false;
    }
    var buf' := buf + rest[..READ_SIZE];
    assert s[..|buf'|] == buf';
    WaitsNoLonger(inspect, s, |buf'|, MAX_TTFT_BUF);
    TakeOfOne(rest, end);
    if inspect(buf') == Wait {
      AlignedReadsRetry(inspect, s, buf', rest[READ_SIZE..], end);
    }
  }

  lemma {:induction false} ShiftedReadsCommit(
    inspect: string -> Verdict, s: string, buf: string, rest: string, end: Status)
    requires Stable(inspect, s) && FailsAtLimit(inspect, s)
    requires buf + rest == s && |buf| % READ_SIZE == 1 && |buf| <= MAX_TTFT_BUF - READ_SIZE + 1 && end != More
    ensures Await(inspect, buf, [Piece(rest, end)]).Commit?
    decreases |rest|
  {
    var one := [Piece(rest, end)];
    if |rest| > READ_SIZE {
      var buf' := buf + rest[..READ_SIZE];
      TakeOfOne(rest, end);
      assert s[..|buf'|] == buf';
      if |buf'| <= MAX_TTFT_BUF {
        WaitsNoLonger(inspect, s, |buf'|, MAX_TTFT_BUF - READ_SIZE + 1);
        ShiftedReadsCommit(inspect, s, buf', rest[READ_SIZE..], end);
      }
    } else {
      assert Take(one, READ_SIZE).0 == rest;
      assert |buf + rest| > MAX_TTFT_BUF;
    }
  }

  // Whether commit or retry depends on the bytes and their end alone.
  ghost predicate ChunkingIrrelevant(inspect: string -> Verdict, s: string, end: Status) {
    forall d1, d2 ::
      Delivery(d1) && Delivery(d2) && Bytes(d1) == s && Bytes(d2) == s && End(d1) == end && End(d2) == end
      ==> (Await(inspect, "", d1).Commit? <==> Await(inspect, "", d2).Commit?)
  }

  // Two deliveries of the same bytes that differ only in the first cut.
  lemma {:induction false} TwoDeliveries(s: string, end: Status) returns (aligned: seq<Piece>, shifted: seq<Piece>)
    requires s != "" && end != More
    ensures aligned == [Piece(s, end)]
    ensures shifted == [Piece(s[..1], More), Piece(s[1..], end)]
    ensures Delivery(aligned) && Bytes(aligned) == s && End(aligned) == end
    ensures Delivery(shifted) && Bytes(shifted) == s && End(shifted) == end
    ensures Take(shifted, READ_SIZE) == (s[..1], More, [Piece(s[1..], end)])
  {
    aligned := [Piece(s, end)];
    shifted := [Piece(s[..1], More), Piece(s[1..], end)];
    assert aligned[1..] == [];
    assert shifted[1..] == [Piece(s[1..], end)] && shifted[1..][1..] == [];
    assert s[..1] + s[1..] == s;
  }

  lemma {:induction false} ChunkingMattersAtLimit(inspect: string -> Verdict, s: string, end: Status)
    requires Stable(inspect, s) && FailsAtLimit(inspect, s) && end != More && inspect("") == Wait
    ensures !ChunkingIrrelevant(inspect, s, end)
  {
    var aligned, shifted := TwoDeliveries(s, end);
    assert "" + s == s && "" + s[..1] == s[..1] && s[..1] + s[1..] == s;
    AlignedReadsRetry(inspect, s, "", s, end);
    WaitsNoLonger(inspect, s, 1, MAX_TTFT_BUF - READ_SIZE + 1);
    ShiftedReadsCommit(inspect, s, s[..1], s[1..], end);
    assert Await(inspect, "", shifted) == Await(inspect, s[..1], [Piece(s[1..], end)]);
  }

  /** Commit or retry is independent of how the bytes are cut into reads exactly when no
      failure shows only in the last bytes before the buffer limit; the answer is then
      `ShouldCommit`. */
  lemma {:induction false} ChunkingIrrelevantExactly(parse: Parser, s: string, end: Status)
    requires ParsesObjects(parse) && WellFormed(parse, s) && end != More
    ensures ChunkingIrrelevant(Inspector(parse), s, end) <==> !FailsAtLimit(Inspector(parse), s)
    ensures !FailsAtLimit(Inspector(parse), s) ==>
      forall d :: Delivery(d) && Bytes(d) == s && End(d) == end ==>
        (Await(Inspector(parse), "", d).Commit? <==> ShouldCommit(Inspector(parse), s, end))
  {
    var inspect := Inspector(parse);
    VerdictPersists(parse, s);
    NothingReadYet(parse);
    if FailsAtLimit(inspect, s) {
      ChunkingMattersAtLimit(inspect, s, end);
    } else {
      forall d | Delivery(d) && Bytes(d) == s && End(d) == end
        ensures Await(inspect, "", d).Commit? <==> ShouldCommit(inspect, s, end)
      {
        assert "" + Bytes(d) == s;
        AwaitAnswers(inspect, s, "", d);
      }
    }
  }

  lemma NothingReadYet(parse: Parser)
    ensures Inspector(parse)("") == Wait
  {
    assert Split("") == [""];
    InspectFirst(Judge(parse), "", "");
    assert Trim("") == "";
  }

  // ---------------------------------------------------------------------------
  // A stream at the limit
  // ---------------------------------------------------------------------------

  const ERROR_TEXT := "{\"error\":true}"
  const ERROR_LINE := "data:" + ERROR_TEXT

  // A parser that knows nothing but this error object.
  function ErrorParser(): Parser {
    (s: string) => if s == ERROR_TEXT then Some(map["error" := Bool(true)]) else None
  }

  function Comment(n: nat): (s: string)
    ensures |s| == n && forall i :: 0 <= i < n ==> s[i] == ':'
  {
    seq(n, i => ':')
  }

  // A comment that fills the buffer but for the error line, the error, and one more byte.
  const FILLER: nat := MAX_TTFT_BUF - |ERROR_LINE| - 2

  function LateError(): string {
    Comment(FILLER) + "\n" + ERROR_LINE + "\n" + ":"
  }

  lemma CommentIsNoData(s: string)
    requires s == "" || (forall i :: 0 <= i < |s| ==> s[i] == ':')
    ensures Payload(s) == None
  {
    TrimOfTrimmed(s);
    if s != "" {
      assert s[0] == ':';
    }
  }

  lemma ErrorLineFails(parse: Parser)
    requires parse(ERROR_TEXT).Some? && Field(parse(ERROR_TEXT).value, "error") != Null
    ensures Payload(ERROR_LINE) == Some(ERROR_TEXT)
    ensures LineVerdict(parse, ERROR_LINE) == Failed
  {
    TrimOfTrimmed(ERROR_LINE);
    assert ERROR_LINE[5..] == ERROR_TEXT;
    TrimOfTrimmed(ERROR_TEXT);
  }

  // The first line of a text whose first line break is known.
  lemma {:induction false} SplitAt(line: string, rest: string)
    requires forall i :: 0 <= i < |line| ==> line[i] != '\n'
    ensures Split(line + "\n" + rest) == [line] + Split(rest)
  {
    var s := line + "\n" + rest;
    LineEndOf(s, |line|);
    assert s[..|line|] == line && s[|line| + 1..] == rest;
  }

  lemma {:induction false} SplitOne(line: string)
    requires forall i :: 0 <= i < |line| ==> line[i] != '\n'
    ensures Split(line) == [line]
  {
    LineEndOf(line, |line|);
  }

  predicate OneLine(s: string) {
    forall i :: 0 <= i < |s| ==> s[i] != '\n'
  }

  lemma {:induction false} SplitThree(x: string, y: string, z: string)
    requires OneLine(x) && OneLine(y) && OneLine(z)
    ensures Split(x + "\n" + (y + "\n" + z)) == [x] + ([y] + [z])
  {
    SplitAt(x, y + "\n" + z);
    SplitAt(y, z);
    SplitOne(z);
  }

  lemma {:induction false} LateErrorLines(tail: string)
    requires tail in {"", ":"}
    ensures Split(Comment(FILLER) + "\n" + (ERROR_LINE + "\n" + tail)) == [Comment(FILLER)] + ([ERROR_LINE] + [tail])
  {
    SplitThree(Comment(FILLER), ERROR_LINE, tail);
  }

  lemma {:induction false} ThreeLines(parse: Parser, s: string, x: string, y: string, z: string)
    requires Split(s) == [x] + ([y] + [z])
    requires WellFormedLine(parse, x) && WellFormedLine(parse, y) && WellFormedLine(parse, z)
    ensures WellFormed(parse, s)
  {
  }

  lemma LateErrorLength()
    ensures |LateError()| == MAX_TTFT_BUF + 1
    ensures LateError() == Comment(FILLER) + "\n" + (ERROR_LINE + "\n" + ":")
  {
  }

  lemma {:induction false} LateErrorIsWellFormed(parse: Parser)
    requires parse(ERROR_TEXT).Some? && Field(parse(ERROR_TEXT).value, "error") != Null
    ensures WellFormed(parse, LateError())
  {
    LateErrorLength();
    LateErrorLines(":");
    CommentIsNoData(Comment(FILLER));
    CommentIsNoData(":");
    ErrorLineFails(parse);
    ThreeLines(parse, LateError(), Comment(FILLER), ERROR_LINE, ":");
  }

  lemma {:induction false} LateErrorFails(parse: Parser)
    requires parse(ERROR_TEXT).Some? && Field(parse(ERROR_TEXT).value, "error") != Null
    requires |LateError()| == MAX_TTFT_BUF + 1
    ensures Inspector(parse)(LateError()[..MAX_TTFT_BUF]) == Failed
  {
    var judge := Judge(parse);
    assert LateError()[..MAX_TTFT_BUF] == Comment(FILLER) + "\n" + (ERROR_LINE + "\n" + "");
    LateErrorLines("");
    CommentIsNoData(Comment(FILLER));
    ErrorLineFails(parse);
    FirstLineDecides(judge, Comment(FILLER), [ERROR_LINE] + [""]);
    FirstLineDecides(judge, ERROR_LINE, [""]);
  }

  lemma {:induction false} LateErrorIsLate(parse: Parser)
    requires |LateError()| == MAX_TTFT_BUF + 1
    ensures Inspector(parse)(LateError()[..MAX_TTFT_BUF - READ_SIZE + 1]) == Wait
  {
    var judge := Judge(parse);
    var early := LateError()[..MAX_TTFT_BUF - READ_SIZE + 1];
    assert early == Comment(FILLER)[..MAX_TTFT_BUF - READ_SIZE + 1];
    SplitOne(early);
    CommentIsNoData(early);
    FirstLineDecides(judge, early, []);
    assert [early] + [] == [early];
  }

  /** There is such a stream: a long comment, an error that ends at the buffer limit, and
      one byte more. It is well-formed, and one way to deliver it commits while another
      retries; for every parser that reads the error. */
  lemma {:induction false} LateErrorDependsOnChunking(parse: Parser)
    requires ParsesObjects(parse) && parse(ERROR_TEXT).Some? && Field(parse(ERROR_TEXT).value, "error") != Null
    ensures WellFormed(parse, LateError()) && FailsAtLimit(Inspector(parse), LateError())
    ensures !ChunkingIrrelevant(Inspector(parse), LateError(), Eof)
  {
    LateErrorLength();
    LateErrorIsWellFormed(parse);
    LateErrorFails(parse);
    LateErrorIsLate(parse);
    ChunkingIrrelevantExactly(parse, LateError(), Eof);
  }

  // And there is such a parser.
  lemma ErrorParserParses()
    ensures ParsesObjects(ErrorParser()) && ErrorParser()(ERROR_TEXT) == Some(map["error" := Bool(true)])
  {
  }

  // A chunk with content, as a line of a stream.
  function ContentChunk(content: string): map<string, Json> {
    map["choices" := Arr([Obj(map["delta" := Obj(map["content" := Str(content)])])])]
  }

  const FIRST_TEXT := "{\"choices\":[{\"delta\":{\"content\":\"Hel\"}}]}"
  const SECOND_TEXT := "{\"choices\":[{\"delta\":{\"content\":\"lo\"}}]}"

  function DataLine(payload: string): string {
    "data:" + payload + "\n"
  }

  lemma FirstTextIsOneLine()
    ensures OneLine("data:" + FIRST_TEXT)
  {
    var line := "data:" + FIRST_TEXT;
    assert line[0] != '\n' && line[1] != '\n' && line[2] != '\n' && line[3] != '\n' && line[4] != '\n';
    forall i | 5 <= i < |line|
      ensures line[i] != '\n'
    {
      assert line[i] == FIRST_TEXT[i - 5];
    }
  }

  /** A first chunk with content commits, for every parser that reads it. */
  lemma ContentCommits(parse: Parser)
    requires parse(FIRST_TEXT) == Some(ContentChunk("Hel"))
    ensures Inspector(parse)(DataLine(FIRST_TEXT)) == Committed
  {
    var line := "data:" + FIRST_TEXT;
    TrimOfTrimmed(line);
    assert line[5..] == FIRST_TEXT;
    TrimOfTrimmed(FIRST_TEXT);
    assert Payload(line) == Some(FIRST_TEXT);
    assert LineVerdict(parse, line) == Committed;
    assert DataLine(FIRST_TEXT) == line + "\n" + "";
    FirstTextIsOneLine();
    SplitAt(line, "");
    FirstLineDecides(Judge(parse), line, Split(""));
  }

  // ---------------------------------------------------------------------------
  // Replay
  // ---------------------------------------------------------------------------

  // replayCloser as a value: the buffered prefix, how much of it was handed out, the rest.
  datatype Replay = Replay(prefix: string, off: nat, rest: seq<Piece>) {
    predicate Valid() {
      off <= |prefix| && Delivery(rest)
    }

    function Unread(): string
      requires Valid()
    {
      prefix[off..] + Bytes(rest)
    }
  }

  // One Read of the replayed stream into a buffer of `limit` bytes.
  function ReplayRead(r: Replay, limit: nat): (res: (string, Status, Replay))
    requires r.Valid()
    ensures |res.0| <= limit && res.2.Valid() && End(res.2.rest) == End(r.rest)
  {
    if r.off < |r.prefix| then
      var n := if limit < |r.prefix| - r.off then limit else |r.prefix| - r.off;
      (r.prefix[r.off..r.off + n], More, r.(off := r.off + n))
    else
      var (data, status, rest) := Take(r.rest, limit);
      (data, status, r.(rest := rest))
  }

  lemma {:induction false} ReplayReadConserves(r: Replay, limit: nat)
    requires r.Valid()
    ensures ReplayRead(r, limit).0 + ReplayRead(r, limit).2.Unread() == r.Unread()
    ensures ReplayRead(r, limit).1 != More ==> ReplayRead(r, limit).2.Unread() == ""
  {
    if r.off >= |r.prefix| {
      TakeConserves(r.rest, limit);
    }
  }

  // All that a client reads with these buffer sizes, and what is left.
  function ReadAll(r: Replay, limits: seq<nat>): (res: (string, Replay))
    requires r.Valid()
    ensures res.1.Valid()
    decreases |limits|
  {
    if limits == [] then ("", r)
    else
      var (data, _, r') := ReplayRead(r, limits[0]);
      var (more, r'') := ReadAll(r', limits[1..]);
      (data + more, r'')
  }

  /** Whatever buffers a client uses, it receives the stream's bytes in order, each once. */
  lemma {:induction false} ReplayConserves(r: Replay, limits: seq<nat>)
    requires r.Valid()
    ensures ReadAll(r, limits).0 + ReadAll(r, limits).1.Unread() == r.Unread()
    decreases |limits|
  {
    if limits != [] {
      var (data, _, r') := ReplayRead(r, limits[0]);
      ReplayReadConserves(r, limits[0]);
      ReplayConserves(r', limits[1..]);
      var (more, r'') := ReadAll(r', limits[1..]);
      assert data + (more + r''.Unread()) == (data + more) + r''.Unread();
    }
  }

  // Reads that a client may need before it sees the end.
  function Left(r: Replay): nat
    requires r.Valid()
  {
    |r.prefix| - r.off + Size(r.rest)
  }

  /** Enough reads with non-empty buffers bring the whole stream. */
  lemma {:induction false} ReplayFinishes(r: Replay, limits: seq<nat>)
    requires r.Valid() && |limits| >= Left(r) && forall i :: 0 <= i < |limits| ==> limits[i] > 0
    ensures ReadAll(r, limits).0 == r.Unread()
    decreases |limits|
  {
    ReplayConserves(r, limits);
    var (data, status, r') := ReplayRead(r, limits[0]);
    ReplayReadConserves(r, limits[0]);
    ReplayConserves(r', limits[1..]);
    if status == More {
      ReplayFinishes(r', limits[1..]);
      assert ReadAll(r, limits).1 == ReadAll(r', limits[1..]).1;
    } else {
      assert ReadAll(r', limits[1..]).0 + ReadAll(r', limits[1..]).1.Unread() == "";
    }
  }

  // An upstream body. A Read fills the buffer from the next piece.
  class Reader {
    var pieces: seq<Piece>

    ghost predicate Valid()
      reads this
    {
      Delivery(pieces)
    }

    constructor (pieces: seq<Piece>)
      requires Delivery(pieces)
      ensures Valid() && this.pieces == pieces
    {
      this.pieces := pieces;
    }

    method Read(p: array<char>) returns (n: nat, status: Status)
      requires Valid()
      modifies this, p
      ensures Valid() && n <= p.Length
      ensures (p[..n], status, pieces) == Take(old(pieces), p.Length)
      ensures p[n..] == old(p[..])[n..]
    {
      var first := pieces[0];
      n := if |first.data| > p.Length then p.Length else |first.data|;
      forall i | 0 <= i < n {
        p[i] := first.data[i];
      }
      assert p[..n] == first.data[..n];
      assert n == |first.data| ==> p[..n] == first.data;
      if |first.data| > p.Length {
        status := More;
        pieces := [Piece(first.data[n..], first.status)] + pieces[1..];
      } else {
        status := first.status;
        pieces := if status == More then pieces[1..] else [Piece("", status)];
      }
    }
  }

  class ReplayCloser {
    const prefix: string
    const rest: Reader
    var off: nat

    ghost predicate Valid()
      reads this, rest
    {
      off <= |prefix| && rest.Valid()
    }

    function View(): Replay
      reads this, rest
    {
      Replay(prefix, off, rest.pieces)
    }

    constructor (prefix: string, rest: Reader)
      requires rest.Valid()
      ensures Valid() && this.rest == rest && View() == Replay(prefix, 0, rest.pieces)
    {
      this.prefix, this.rest, off := prefix, rest, 0;
    }

    method Read(p: array<char>) returns (n: nat, status: Status)
      requires Valid()
      modifies this, rest, p
      ensures Valid() && n <= p.Length
      ensures (p[..n], status, View()) == ReplayRead(old(View()), p.Length)
    {
      if off < |prefix| {
        n := if p.Length < |prefix| - off then p.Length else |prefix| - off;
        forall i | 0 <= i < n {
          p[i] := prefix[off + i];
        }
        assert p[..n] == prefix[off..off + n];
        off := off + n;
        return n, More;
      }
      n, status := rest.Read(p);
    }
  }

  // What awaitCommit hands back: a replay of the committed stream, or the cause of a retry.
  ghost predicate Delivers(answer: Answer, out: ReplayCloser?, cause: Option<Cause>)
    reads out, if out == null then {} else {out.rest}
  {
    match answer
    case Retry(why) => out == null && cause == Some(why)
    case Commit(prefix, rest) => cause == None && out != null && out.Valid() && out.View() == Replay(prefix, 0, rest)
  }

  /** awaitCommit on a reader answers as `Await` does, with `inspect` for inspectTTFT; a
      committed stream replays what was read and goes on with the same reader. */
  method AwaitCommit(inspect: string -> Verdict, rc: Reader?) returns (out: ReplayCloser?, cause: Option<Cause>)
    requires rc != null ==> rc.Valid()
    modifies rc
    ensures rc == null ==> out == null && cause == Some(UnexpectedEof)
    ensures rc != null ==> Delivers(Await(inspect, "", old(rc.pieces)), out, cause)
    ensures out != null ==> fresh(out) && (out.rest == rc || fresh(out.rest))
  {
    if rc == null {
      return null, Some(UnexpectedEof);
    }
    var buf := "";
    var tmp := new char[READ_SIZE];
    ghost var answer := Await(inspect, "", rc.pieces);
    while true
      invariant rc.Valid()
      invariant answer == Await(inspect, buf, rc.pieces)
      decreases Size(rc.pieces)
    {
      var n, readErr := rc.Read(tmp);
      assert n == 0 ==> buf + tmp[..n] == buf;
      if n > 0 {
        buf := buf + tmp[..n];
        if |buf| > MAX_TTFT_BUF {
          out := new ReplayCloser(buf, rc);
          return out, None;
        }
        if inspect(buf) == Failed {
          return null, Some(UnexpectedEof);
        } else if inspect(buf) == Committed {
          out := new ReplayCloser(buf, rc);
          return out, None;
        }
      }
      if readErr == Eof {
        out, cause := AtStreamEnd(inspect, buf);
        return;
      }
      if readErr == Broken {
        return null, Some(ReadError);
      }
    }
  }

  // The stream ended before a clear token: any data at all counts as an empty success.
  method AtStreamEnd(inspect: string -> Verdict, buf: string) returns (out: ReplayCloser?, cause: Option<Cause>)
    ensures Delivers(AtEnd(inspect, buf), out, cause)
    ensures out != null ==> fresh(out) && fresh(out.rest)
  {
    if buf == "" || inspect(buf) == Failed {
      return null, Some(UnexpectedEof);
    }
    if inspect(buf) == Committed || Contains(buf, "data:") {
      var nothing := new Reader([Piece("", Eof)]);
      out := new ReplayCloser(buf, nothing);
      return out, None;
    }
    return null, Some(UnexpectedEof);
  }
}
