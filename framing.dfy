/**
 * Response framing for one shell request (`handle_request`): the wire messages
 * the server sends for a command, as a function of the command text and of
 * the shell's outcome, and a reader that takes a sequence of such messages,
 * one per `send_msg` call, apart again.
 */
module Framing {
  import opened Wrappers
  import opened Text

  /** What running the command through the shell gave: its decoded standard output, or an exception. */
  datatype Outcome = Completed(output: string) | Failed

  /** One received command together with the outcome of running it. */
  datatype Request = Request(command: string, outcome: Outcome)

  const StartMarker: string := "::start::"
  const EndMarker: string := "::end::"

  function NothingNotice(command: string): string {
    "the command '" + command + "' returns nothing "
  }

  function ErrorNotice(command: string): string {
    "Error when trying to run the command '" + command + "' "
  }

  predicate EndsWithSpace(m: string) {
    |m| > 0 && m[|m| - 1] == ' '
  }

  /** One wire message per output line, each with a space appended. */
  function LineMessages(lines: seq<string>): (msgs: seq<string>)
    ensures |msgs| == |lines|
  {
    if lines == [] then [] else LineMessages(lines[..|lines| - 1]) + [lines[|lines| - 1] + " "]
  }

  /** The message for line `k` is that line with a space appended. */
  lemma {:induction false} LineMessagesAt(lines: seq<string>)
    ensures forall k :: 0 <= k < |lines| ==> LineMessages(lines)[k] == lines[k] + " "
  {
    if lines != [] {
      LineMessagesAt(lines[..|lines| - 1]);
    }
  }

  /**
   * The messages between the two markers: the notice for an empty stripped
   * output followed by the lines of the stripped output, or the error notice.
   */
  function Body(command: string, outcome: Outcome): seq<string> {
    match outcome
    case Failed => [ErrorNotice(command)]
    case Completed(output) =>
      var result := Strip(output);
      (if result == [] then [NothingNotice(command)] else []) + LineMessages(SplitLines(result))
  }

  /** The body is never empty, and each of its messages ends with a space. */
  lemma BodyShape(command: string, outcome: Outcome)
    ensures |Body(command, outcome)| >= 1
    ensures forall k :: 0 <= k < |Body(command, outcome)| ==> EndsWithSpace(Body(command, outcome)[k])
  {
    match outcome
    case Failed =>
    case Completed(output) =>
      var result := Strip(output);
      var lines := SplitLines(result);
      var body := (if result == [] then [NothingNotice(command)] else []) + LineMessages(lines);
      assert result != [] ==> lines != [];
      LineMessagesAt(lines);
      forall k | 0 <= k < |body| ensures EndsWithSpace(body[k]) {
        if result == [] {
          assert body == [NothingNotice(command)];
        } else {
          assert body[k] == lines[k] + " ";
        }
      }
  }

  /** Every message `handle_request` sends, in order: the start marker, the body, the end marker. */
  function Response(command: string, outcome: Outcome): (msgs: seq<string>)
    ensures |msgs| >= 3
    ensures msgs[0] == StartMarker && msgs[|msgs| - 1] == EndMarker
  {
    BodyShape(command, outcome);
    [StartMarker] + Body(command, outcome) + [EndMarker]
  }

  /** The markers occur nowhere but first and last, since every other message ends with a space. */
  lemma MarkersOnlyAtEnds(command: string, outcome: Outcome)
    ensures var msgs := Response(command, outcome);
      forall k :: 0 < k < |msgs| - 1 ==> msgs[k] != StartMarker && msgs[k] != EndMarker
  {
    var body := Body(command, outcome);
    BodyShape(command, outcome);
    var msgs := [StartMarker] + body + [EndMarker];
    assert forall k :: 0 < k < |msgs| - 1 ==> msgs[k] == body[k - 1];
  }

  lemma ResponseOnOutput(command: string, output: string)
    requires Strip(output) != []
    ensures Response(command, Completed(output))
         == [StartMarker] + LineMessages(SplitLines(Strip(output))) + [EndMarker]
    ensures |Response(command, Completed(output))| == |SplitLines(Strip(output))| + 2
  {
    var msgs := LineMessages(SplitLines(Strip(output)));
    assert Body(command, Completed(output)) == [] + msgs;
    assert [] + msgs == msgs;
  }

  lemma ResponseOnNothing(command: string, output: string)
    requires AllSpace(output)
    ensures Response(command, Completed(output)) == [StartMarker, NothingNotice(command), EndMarker]
  {
    StripEmpty(output);
  }

  lemma ResponseOnFailure(command: string)
    ensures Response(command, Failed) == [StartMarker, ErrorNotice(command), EndMarker]
  {
  }

  /**
   * Every command gets exactly one kind of answer: the error notice alone,
   * the nothing notice alone, or at least one output line and no notice.
   */
  lemma {:induction false} OneKindOfAnswer(command: string, outcome: Outcome)
    ensures var body := Body(command, outcome);
      match outcome
      case Failed => body == [ErrorNotice(command)]
      case Completed(output) =>
        if AllSpace(output) then body == [NothingNotice(command)]
        else |body| == |SplitLines(Strip(output))| >= 1 && body == LineMessages(SplitLines(Strip(output)))
  {
    match outcome
    case Failed =>
    case Completed(output) =>
      var result := Strip(output);
      StripEmpty(output);
      if !AllSpace(output) {
        assert result != [];
        assert SplitLines(result) != [];
      }
  }

  /**
   * A command that prints one line (say `echo hello`, which prints "hello\n")
   * is answered by that line with a space appended, between the markers.
   */
  lemma OneLineOutput(command: string, line: string)
    requires line != [] && NoBreak(line)
    requires !IsSpace(line[0]) && !IsSpace(line[|line| - 1])
    ensures Response(command, Completed(line + "\n")) == [StartMarker, line + " ", EndMarker]
  {
    StripOneLine(line);
    SplitJoined([line]);
    assert Joined([line]) == line;
    assert [line][..0] == [];
    assert LineMessages([line]) == [line + " "];
    assert Body(command, Completed(line + "\n")) == [] + [line + " "];
  }

  lemma StripOneLine(line: string)
    requires line != [] && !IsSpace(line[0]) && !IsSpace(line[|line| - 1])
    ensures Strip(line + "\n") == line
  {
    var out := line + "\n";
    assert out[0] == line[0];
    assert TrimStart(out) == out;
    assert out[..|out| - 1] == line;
    assert TrimEnd(line) == line;
    assert TrimEnd(out) == line;
  }

  /** The messages before the first end marker, and what follows that marker. */
  function ReadBody(stream: seq<string>): (r: Option<(seq<string>, seq<string>)>)
    ensures r.Some? ==> |r.value.1| < |stream|
  {
    if stream == [] then None
    else if stream[0] == EndMarker then Some(([], stream[1..]))
    else
      match ReadBody(stream[1..])
      case None => None
      case Some((body, rest)) => Some(([stream[0]] + body, rest))
  }

  /** Reads one response off a sequence of `send_msg` messages: a start marker, a body, an end marker. */
  function ReadResponse(stream: seq<string>): (r: Option<(seq<string>, seq<string>)>)
    ensures r.Some? ==> |r.value.1| < |stream|
  {
    if stream != [] && stream[0] == StartMarker then ReadBody(stream[1..]) else None
  }

  /** Reads a whole sequence of `send_msg` messages as responses. */
  function ReadResponses(stream: seq<string>): Option<seq<seq<string>>>
    decreases |stream|
  {
    if stream == [] then Some([])
    else
      match ReadResponse(stream)
      case None => None
      case Some((body, rest)) =>
        match ReadResponses(rest)
        case None => None
        case Some(bodies) => Some([body] + bodies)
  }

  lemma {:induction false} ReadBodyUpToEnd(body: seq<string>, rest: seq<string>)
    requires forall k :: 0 <= k < |body| ==> body[k] != EndMarker
    ensures ReadBody(body + [EndMarker] + rest) == Some((body, rest))
  {
    var s := body + [EndMarker] + rest;
    if body == [] {
      assert s[1..] == rest;
    } else {
      assert s[1..] == body[1..] + [EndMarker] + rest;
      ReadBodyUpToEnd(body[1..], rest);
      assert [body[0]] + body[1..] == body;
    }
  }

  /** Reading a response back off the message sequence yields exactly its body and leaves what follows. */
  lemma ReadResponseInverts(command: string, outcome: Outcome, rest: seq<string>)
    ensures ReadResponse(Response(command, outcome) + rest) == Some((Body(command, outcome), rest))
  {
    var body := Body(command, outcome);
    BodyShape(command, outcome);
    assert Response(command, outcome) == [StartMarker] + body + [EndMarker];
    ReadFramed(body, rest);
  }

  lemma ReadFramed(body: seq<string>, rest: seq<string>)
    requires forall k :: 0 <= k < |body| ==> EndsWithSpace(body[k])
    ensures ReadResponse([StartMarker] + body + [EndMarker] + rest) == Some((body, rest))
  {
    var s := [StartMarker] + body + [EndMarker] + rest;
    assert s[1..] == body + [EndMarker] + rest;
    ReadBodyUpToEnd(body, rest);
  }

  /** `f` applied to each element, the results joined in order. */
  function ConcatMap<A, B>(f: A -> seq<B>, xs: seq<A>): seq<B> {
    if xs == [] then [] else f(xs[0]) + ConcatMap(f, xs[1..])
  }

  lemma {:induction false} ConcatMapSnoc<A, B>(f: A -> seq<B>, xs: seq<A>, x: A)
    ensures ConcatMap(f, xs + [x]) == ConcatMap(f, xs) + f(x)
  {
    if xs == [] {
      assert ([] + [x])[1..] == [];
    } else {
      assert (xs + [x])[0] == xs[0];
      assert (xs + [x])[1..] == xs[1..] + [x];
      ConcatMapSnoc(f, xs[1..], x);
    }
  }

  function ResponseTo(r: Request): seq<string> {
    Response(r.command, r.outcome)
  }

  /** Every `send_msg` message for a sequence of requests on one connection, in order. */
  function Responses(requests: seq<Request>): seq<string> {
    ConcatMap(ResponseTo, requests)
  }

  function Bodies(requests: seq<Request>): seq<seq<string>> {
    if requests == [] then [] else [Body(requests[0].command, requests[0].outcome)] + Bodies(requests[1..])
  }

  /** Reading the messages back recovers every request's body, in the order the requests arrived. */
  lemma {:induction false} ReadResponsesInverts(requests: seq<Request>)
    ensures ReadResponses(Responses(requests)) == Some(Bodies(requests))
  {
    if requests != [] {
      var r := requests[0];
      ReadResponseInverts(r.command, r.outcome, Responses(requests[1..]));
      ReadResponsesInverts(requests[1..]);
    }
  }
}
