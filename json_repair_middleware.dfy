/**
 * src/common/middleware/json-repair.middleware.ts: the request middleware that
 * replaces the stock JSON body parser. It collects the body from the request's
 * `data` events and decides on `end`: an empty body is `{}`, a body the strict
 * parser accepts is used as it is, anything else goes through the regex variant
 * of the repair engine, and an unrepairable body is answered with a 200 reply.
 */
module JsonRepairMiddleware {
  import opened Wrappers
  import opened JsText
  import opened JsValues
  import opened RegexPasses
  import opened RepairSearch
  import opened JsonRepairUtil

  /** A JSON reply `res.status(status).json({message, success})`. */
  datatype Reply = Reply(status: nat, message: string, success: bool)

  const InvalidPayload: Reply := Reply(200, "Invalid JSON payload", false)
  const RequestError: Reply := Reply(200, "Request error", false)

  /** What the request stream delivers after the handlers are installed. */
  datatype Event = Data(chunk: string) | End | StreamError

  /** The observable part of a request/response pair: `req.body`, the calls of `next`, the replies sent. */
  datatype ExchangeState = ExchangeState(requestBody: Value, nextCalls: nat, replies: seq<Reply>)

  /** The content-type gate: the header is present and contains `application/json`. */
  predicate IsJsonRequest(contentType: Option<string>)
  {
    contentType.Some? && Contains(contentType.value, "application/json")
  }

  /** The decision of the `end` handler for the collected body `body`. */
  function EndStep(st: ExchangeState, body: string, first: Matcher, second: Matcher, parse: Parser): ExchangeState
  {
    if body == [] then st.(requestBody := Obj([]), nextCalls := st.nextCalls + 1)
    else match parse(body)
      case Some(v) => st.(requestBody := v, nextCalls := st.nextCalls + 1)
      case None =>
        match Repair(body, Strategies(first, second), parse)
        case Repaired(v) => st.(requestBody := v, nextCalls := st.nextCalls + 1)
        case Unrepairable(_) => st.(replies := st.replies + [InvalidPayload])
  }

  /** One event: `data` appends the chunk to the collected body; `end` and `error` run their handlers. */
  function EventStep(st: ExchangeState, body: string, e: Event, first: Matcher, second: Matcher, parse: Parser): (ExchangeState, string)
  {
    match e
    case Data(chunk) => (st, body + chunk)
    case End => (EndStep(st, body, first, second, parse), body)
    case StreamError => (st.(replies := st.replies + [RequestError]), body)
  }

  /** The events delivered in order, starting from the state `st` and the collected body `body`. */
  function Replay(st: ExchangeState, body: string, events: seq<Event>, first: Matcher, second: Matcher, parse: Parser): (ExchangeState, string)
    decreases |events|
  {
    if events == [] then (st, body)
    else
      var next := EventStep(st, body, events[0], first, second, parse);
      Replay(next.0, next.1, events[1..], first, second, parse)
  }

  /** The chunks of the `data` events, concatenated in arrival order. */
  function Chunks(events: seq<Event>): string
    decreases |events|
  {
    if events == [] then []
    else (if events[0].Data? then events[0].chunk else []) + Chunks(events[1..])
  }

  /** The collected body is the concatenation of the chunks, in the order they arrived. */
  lemma {:induction false} ReplayCollectsChunks(st: ExchangeState, body: string, events: seq<Event>, first: Matcher, second: Matcher, parse: Parser)
    ensures Replay(st, body, events, first, second, parse).1 == body + Chunks(events)
    decreases |events|
  {
    if events != [] {
      var next := EventStep(st, body, events[0], first, second, parse);
      ReplayCollectsChunks(next.0, next.1, events[1..], first, second, parse);
    }
  }

  /** Chunks followed by `end`: the decision is taken on the whole concatenated body. */
  lemma {:induction false} DataThenEnd(st: ExchangeState, chunks: seq<string>, first: Matcher, second: Matcher, parse: Parser)
    ensures Replay(st, "", seq(|chunks|, i requires 0 <= i < |chunks| => Data(chunks[i])) + [End], first, second, parse).0
         == EndStep(st, Replay(st, "", seq(|chunks|, i requires 0 <= i < |chunks| => Data(chunks[i])), first, second, parse).1,
                    first, second, parse)
  {
    var datas := seq(|chunks|, i requires 0 <= i < |chunks| => Data(chunks[i]));
    DataReplay(st, "", datas, first, second, parse);
    ReplayAppend(st, "", datas, [End], first, second, parse);
  }

  lemma {:induction false} DataReplay(st: ExchangeState, body: string, datas: seq<Event>, first: Matcher, second: Matcher, parse: Parser)
    requires forall k :: 0 <= k < |datas| ==> datas[k].Data?
    ensures Replay(st, body, datas, first, second, parse).0 == st
    decreases |datas|
  {
    if datas != [] {
      DataReplay(st, body + datas[0].chunk, datas[1..], first, second, parse);
    }
  }

  lemma {:induction false} ReplayAppend(st: ExchangeState, body: string, a: seq<Event>, b: seq<Event>, first: Matcher, second: Matcher, parse: Parser)
    ensures Replay(st, body, a + b, first, second, parse)
         == (var mid := Replay(st, body, a, first, second, parse); Replay(mid.0, mid.1, b, first, second, parse))
    decreases |a|
  {
    if a == [] {
      assert a + b == b;
    } else {
      assert (a + b)[1..] == a[1..] + b;
      var next := EventStep(st, body, a[0], first, second, parse);
      ReplayAppend(next.0, next.1, a[1..], b, first, second, parse);
    }
  }

  /**
   * The `end` handler answers exactly once: either `next` is called and no reply
   * is sent, or the invalid-payload reply is sent, `next` is not called and
   * `req.body` is left alone.
   */
  lemma EndAnswersOnce(st: ExchangeState, body: string, first: Matcher, second: Matcher, parse: Parser)
    ensures var r := EndStep(st, body, first, second, parse);
      (r.nextCalls == st.nextCalls + 1 && r.replies == st.replies)
      || (r.nextCalls == st.nextCalls && r.replies == st.replies + [InvalidPayload] && r.requestBody == st.requestBody)
    ensures EndStep(st, body, first, second, parse).replies != st.replies <==>
      body != [] && parse(body).None? && !Repair(body, Strategies(first, second), parse).Success()
  {
  }

  /**
   * The body `req.body` ends up with: `{}` for an empty body, the strict parse when
   * it succeeds (whatever the repair engine would say), otherwise the repaired value.
   */
  lemma EndSetsBody(st: ExchangeState, body: string, first: Matcher, second: Matcher, parse: Parser)
    ensures body == [] ==> EndStep(st, body, first, second, parse).requestBody == Obj([])
    ensures body != [] && parse(body).Some? ==>
      EndStep(st, body, first, second, parse).requestBody == parse(body).value
    ensures body != [] && parse(body).None? && Repair(body, Strategies(first, second), parse).Success() ==>
      EndStep(st, body, first, second, parse).requestBody == Repair(body, Strategies(first, second), parse).data
  {
  }

  /** A request and its response, as far as the middleware changes them. */
  class Exchange {
    var requestBody: Value
    var nextCalls: nat
    var replies: seq<Reply>

    function State(): ExchangeState
      reads this
    {
      ExchangeState(requestBody, nextCalls, replies)
    }

    constructor ()
      ensures State() == ExchangeState(Undefined, 0, [])
    {
      requestBody := Undefined;
      nextCalls := 0;
      replies := [];
    }

    /** The `end` handler. */
    method OnEnd(body: string, first: Matcher, second: Matcher, parse: Parser)
      modifies this
      ensures State() == EndStep(old(State()), body, first, second, parse)
    {
      if body == [] {
        requestBody := Obj([]);
        nextCalls := nextCalls + 1;
        return;
      }
      var strict := parse(body);
      if strict.Some? {
        requestBody := strict.value;
        nextCalls := nextCalls + 1;
      } else {
        var repaired := JsonRepairUtil.RepairAndParseJson(body, first, second, parse);
        if repaired.Success() {
          requestBody := repaired.data;
          nextCalls := nextCalls + 1;
        } else {
          replies := replies + [InvalidPayload];
        }
      }
    }

    /** `jsonRepairMiddleware(req, res, next)` followed by the stream's events. */
    method Handle(contentType: Option<string>, events: seq<Event>, first: Matcher, second: Matcher, parse: Parser)
      modifies this
      ensures !IsJsonRequest(contentType) ==> State() == old(State()).(nextCalls := old(nextCalls) + 1)
      ensures IsJsonRequest(contentType) ==> State() == Replay(old(State()), "", events, first, second, parse).0
    {
      if !IsJsonRequest(contentType) {
        nextCalls := nextCalls + 1;
        return;
      }
      var body := "";
      var i := 0;
      while i < |events|
        invariant 0 <= i <= |events|
        invariant Replay(State(), body, events[i..], first, second, parse) == Replay(old(State()), "", events, first, second, parse)
      {
        assert events[i..][1..] == events[i + 1..];
        match events[i] {
          case Data(chunk) =>
            body := body + chunk;
          case End =>
            OnEnd(body, first, second, parse);
          case StreamError =>
            replies := replies + [RequestError];
        }
        i := i + 1;
      }
    }
  }
}
