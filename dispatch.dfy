/**
 * The decision inside `sendRequestCallback`: given what `request` reported,
 * which two arguments, if any, the caller's callback receives.  `E` stands for
 * the transport error object, `J` for the value `JSON.parse` produced.
 */
module Dispatch {
  import opened Options

  type Text = seq<char>

  /** The HTTP response object `request` hands back (only what the decision reads). */
  datatype Response = Response(statusCode: int, successTruthy: bool)

  /** What `request` passed to its callback, and how `JSON.parse(body)` went. */
  datatype Reply<E, J> = Reply(
    error: Option<E>,
    result: Option<Response>,
    /** `None` for `undefined`/`null`; `Some("")` is falsy as well. */
    body: Option<Text>,
    /** `None` when `JSON.parse` throws. */
    parsed: Option<J>)

  datatype DispatchOptions = DispatchOptions(inverseCallbackArguments: bool, cleartext: bool)

  /** One callback argument. */
  datatype Arg<E, J> =
    | Null
      /** `{success: false, message: 'URL request error', error, result}` */
    | RequestError(error: Option<E>, result: Option<Response>)
      /** The HTTP response object itself, forwarded as the exchange's own error. */
    | ResponseObject(response: Response)
    | RawBody(body: Text)
    | Parsed(json: J)

  datatype Outcome<E, J> = NotCalled | Called(first: Arg<E, J>, second: Arg<E, J>)

  /** `!body || !result || result.statusCode !== 200` is false: the transport delivered a 200 with a body. */
  predicate TransportOk<E, J>(reply: Reply<E, J>) {
    && reply.body.Some? && reply.body.value != ""
    && reply.result.Some? && reply.result.value.statusCode == 200
  }

  /** Where an outcome goes: failures in the first slot iff `inverse_callback_arguments`, successes in the other. */
  function Place<E, J>(inverse: bool, failure: bool, a: Arg<E, J>): Outcome<E, J> {
    if inverse == failure then Called(a, Null) else Called(Null, a)
  }

  /**
   * node.bittrex.api.js `sendRequestCallback`, the body of `request`'s callback.
   * The business-failure test reads `success` of the HTTP response object, not
   * of the parsed JSON.
   */
  function SendRequestOutcome<E, J>(reply: Reply<E, J>, opts: DispatchOptions): (o: Outcome<E, J>)
    ensures o.NotCalled? <==> TransportOk(reply) && reply.parsed.None?
    ensures !TransportOk(reply) ==>
      o == Place(opts.inverseCallbackArguments, true, RequestError(reply.error, reply.result))
    ensures TransportOk(reply) && reply.parsed.Some? && !reply.result.value.successTruthy ==>
      o == Place(opts.inverseCallbackArguments, true, ResponseObject(reply.result.value))
    ensures TransportOk(reply) && reply.parsed.Some? && reply.result.value.successTruthy ==>
      o == Place(opts.inverseCallbackArguments, false,
                 if opts.cleartext then RawBody(reply.body.value) else Parsed(reply.parsed.value))
  {
    if reply.body.None? || reply.body.value == "" || reply.result.None? || reply.result.value.statusCode != 200 then
      var errorObj := RequestError(reply.error, reply.result);
      if opts.inverseCallbackArguments then Called(errorObj, Null) else Called(Null, errorObj)
    else
      match reply.parsed
      case None => NotCalled
      case Some(jsonResult) =>
        if !reply.result.value.successTruthy then
          if opts.inverseCallbackArguments then Called(ResponseObject(reply.result.value), Null)
          else Called(Null, ResponseObject(reply.result.value))
        else
          var payload := if opts.cleartext then RawBody(reply.body.value) else Parsed(jsonResult);
          if opts.inverseCallbackArguments then Called(Null, payload) else Called(payload, Null)
  }

  /** The argument that is not `Null`, when the callback is called. */
  function Delivered<E, J>(o: Outcome<E, J>): Arg<E, J>
    requires o.Called?
  {
    if o.first.Null? then o.second else o.first
  }

  /** Flipping `inverse_callback_arguments` swaps the two arguments and changes nothing else. */
  lemma InverseSwapsArguments<E, J>(reply: Reply<E, J>, opts: DispatchOptions)
    ensures var o := SendRequestOutcome(reply, opts);
      var o' := SendRequestOutcome(reply, opts.(inverseCallbackArguments := !opts.inverseCallbackArguments));
      (o.NotCalled? <==> o'.NotCalled?) &&
      (o.Called? ==> o'.first == o.second && o'.second == o.first)
  {
  }

  /** A reply that is not a 200 never hands the caller a decoded payload, a raw body or the response object. */
  lemma TransportFailureOnlyReportsError<E, J>(reply: Reply<E, J>, opts: DispatchOptions)
    requires reply.result.Some? && reply.result.value.statusCode != 200
    ensures var o := SendRequestOutcome(reply, opts);
      o.Called? && Delivered(o) == RequestError(reply.error, reply.result)
  {
  }

  /**
   * Which slot is used and which kind of argument is delivered does not
   * depend on the parsed JSON's content: only on whether parsing succeeded.
   */
  lemma DecisionIgnoresParsedContent<E, J>(reply: Reply<E, J>, j1: J, j2: J, opts: DispatchOptions)
    ensures var o1 := SendRequestOutcome(reply.(parsed := Some(j1)), opts);
      var o2 := SendRequestOutcome(reply.(parsed := Some(j2)), opts);
      o1.Called? && o2.Called? &&
      (o1.first.Null? <==> o2.first.Null?) &&
      (Delivered(o1).Parsed? <==> Delivered(o2).Parsed?) &&
      (!Delivered(o1).Parsed? ==> o1 == o2)
  {
  }
}
