/**
 The single-shot OAuth callback listener (internal/login/callback.go) and the check of
 what it delivers (internal/login/login.go).

 A handler runs in two atomic steps: it claims the slot under the mutex, and later sends
 its result. Requests arrive and handlers advance in any order; a run is any sequence of steps.
 */
module CallbackListener {
  import opened Sanitize
  import opened Utf8
  import opened Wrappers

  datatype CallbackResult = CallbackResult(
    code: seq<Byte>, state: seq<Byte>, errorCode: seq<Byte>, errorDescription: seq<Byte>)

  datatype Request = Request(verb: string, path: string, query: CallbackResult)

  // HandedOff stands for the redirect to the web app or its plain-text fallback.
  datatype Status = HandedOff | Explained | NotFound | MethodNotAllowed | StateMismatch | Gone

  /** `sending` holds the results of handlers that have claimed the slot and not sent yet,
      `received` those that Wait has returned. */
  datatype Listener = Listener(
    done: bool, result: Option<CallbackResult>, sending: seq<CallbackResult>, received: seq<CallbackResult>)

  const FRESH := Listener(false, None, [], [])

  datatype WaitError = ListenerDied | ContextDone

  datatype Action = Arrive(request: Request) | Send(handler: nat) | Receive

  /** A request that may claim the slot: the browser's redirect, echoing the armed state. */
  predicate Armed(expected: seq<Byte>, r: Request) {
    r.path == "/callback" && r.verb == "GET" && expected != [] && r.query.state == expected
  }

  function Respond(expected: seq<Byte>, l: Listener, r: Request): Status {
    if r.path == "/callback" then
      if r.verb != "GET" then MethodNotAllowed
      else if expected == [] || r.query.state != expected then StateMismatch
      else if l.done then Gone
      else HandedOff
    else if r.verb != "GET" then MethodNotAllowed
    else if r.path != "/" then NotFound
    else Explained
  }

  function Step(expected: seq<Byte>, l: Listener, a: Action): Listener {
    match a
    case Arrive(r) =>
      if Respond(expected, l, r).HandedOff? then l.(done := true, sending := l.sending + [r.query]) else l
    case Send(i) =>
      if i < |l.sending| then
        l.(sending := l.sending[..i] + l.sending[i + 1..],
           // The channel holds one result; a send that finds it full is dropped.
           result := if l.result.None? then Some(l.sending[i]) else l.result)
      else l
    case Receive =>
      if l.result.Some? then l.(result := None, received := l.received + [l.result.value]) else l
  }

  function Run(expected: seq<Byte>, actions: seq<Action>): Listener {
    if actions == [] then FRESH
    else Step(expected, Run(expected, actions[..|actions| - 1]), actions[|actions| - 1])
  }

  class CallbackListener {
    const expectedState: seq<Byte>
    var done: bool
    var result: Option<CallbackResult>
    ghost var sending: seq<CallbackResult>
    ghost var received: seq<CallbackResult>

    ghost function State(): Listener
      reads this
    {
      Listener(done, result, sending, received)
    }

    constructor (expectedState: seq<Byte>)
      ensures this.expectedState == expectedState && State() == FRESH
    {
      this.expectedState := expectedState;
      done, result, sending, received := false, None, [], [];
    }

    /** Up to and including the claim of the slot. */
    method Handle(r: Request) returns (status: Status)
      modifies this
      ensures status == Respond(expectedState, old(State()), r)
      ensures State() == Step(expectedState, old(State()), Arrive(r))
    {
      if r.path != "/callback" {
        status := HandleRoot(r);
        return;
      }
      if r.verb != "GET" {
        return MethodNotAllowed;
      }
      if expectedState == [] || r.query.state != expectedState {
        return StateMismatch;
      }
      var already := done;
      done := true;
      if already {
        return Gone;
      }
      sending := sending + [r.query];
      return HandedOff;
    }

    method HandleRoot(r: Request) returns (status: Status)
      requires r.path != "/callback"
      ensures status == Respond(expectedState, State(), r)
    {
      if r.verb != "GET" {
        return MethodNotAllowed;
      }
      if r.path != "/" {
        return NotFound;
      }
      return Explained;
    }

    /** The rest of a handler that claimed the slot. */
    method SendResult(res: CallbackResult, ghost handler: nat)
      requires handler < |sending| && sending[handler] == res
      modifies this
      ensures State() == Step(expectedState, old(State()), Send(handler))
    {
      sending := sending[..handler] + sending[handler + 1..];
      if result.None? {
        result := Some(res);
      }
    }

    /** Wait blocks until one of three things is ready, and takes one that is: a result, the
        error of a server that died, or the end of the context. */
    method Wait(serverDied: bool, contextDone: bool) returns (r: Result<CallbackResult, WaitError>)
      requires result.Some? || serverDied || contextDone
      modifies this
      ensures r.Ok? ==> old(result) == Some(r.value) && State() == Step(expectedState, old(State()), Receive)
      ensures r.Err? ==> State() == old(State()) && if r.error.ListenerDied? then serverDied else contextDone
    {
      if
      case result.Some? =>
        r := Ok(result.value);
        received := received + [result.value];
        result := None;
      case serverDied =>
        r := Err(ListenerDied);
      case contextDone =>
        r := Err(ContextDone);
    }
  }

  // ----- What is delivered -----

  /** The query of the first request of the run that echoed the armed state. */
  function FirstArmed(expected: seq<Byte>, actions: seq<Action>): seq<CallbackResult> {
    if actions == [] then []
    else
      var first, last := FirstArmed(expected, actions[..|actions| - 1]), actions[|actions| - 1];
      if first == [] && last.Arrive? && Armed(expected, last.request) then [last.request.query] else first
  }

  /** Everything claimed so far: received, waiting in the channel, or about to be sent. */
  function Claimed(l: Listener): seq<CallbackResult> {
    l.received + (if l.result.Some? then [l.result.value] else []) + l.sending
  }

  /** In every interleaving exactly the first armed request is claimed, and its result is
      on its way, waiting or received, once: never dropped, never doubled. */
  lemma {:induction false} DeliversFirstArmed(expected: seq<Byte>, actions: seq<Action>)
    ensures var l := Run(expected, actions);
            && Claimed(l) == FirstArmed(expected, actions)
            && |Claimed(l)| <= 1
            && (l.done <==> Claimed(l) != [])
  {
    if actions != [] {
      var init := actions[..|actions| - 1];
      DeliversFirstArmed(expected, init);
      var l, last := Run(expected, init), actions[|actions| - 1];
      if last.Send? && last.handler < |l.sending| {
        assert |l.sending| == 1 && l.result.None? && l.received == [];
      }
    }
  }

  /** So Wait returns at most one result, that of the first armed request. */
  lemma AtMostOneReceived(expected: seq<Byte>, actions: seq<Action>)
    ensures var received := Run(expected, actions).received;
            received == [] || received == FirstArmed(expected, actions)
  {
    hide FirstArmed, Run;
    DeliversFirstArmed(expected, actions);
  }

  /** A request changes the listener exactly when it is the first armed one; every other
      request is answered with an error, or with the explanation at the root. */
  lemma OthersLeaveNoTrace(expected: seq<Byte>, actions: seq<Action>, r: Request)
    ensures var l := Run(expected, actions);
            && (Step(expected, l, Arrive(r)) != l <==> Armed(expected, r) && FirstArmed(expected, actions) == [])
            && (Respond(expected, l, r) == HandedOff <==> Step(expected, l, Arrive(r)) != l)
            && (Respond(expected, l, r) == Gone <==> Armed(expected, r) && FirstArmed(expected, actions) != [])
  {
    hide FirstArmed, Run;
    DeliversFirstArmed(expected, actions);
  }

  /** The answers, after any run: 405 for another method, 404 for another path, an explanation at
      the root, 400 for another state, 410 after the first armed request, and a handoff for that one. */
  lemma AnswersMean(expected: seq<Byte>, actions: seq<Action>, r: Request)
    ensures var answer := Respond(expected, Run(expected, actions), r);
            && (answer == MethodNotAllowed <==> r.verb != "GET")
            && (answer == NotFound <==> r.verb == "GET" && r.path != "/callback" && r.path != "/")
            && (answer == Explained <==> r.verb == "GET" && r.path == "/")
            && (answer == StateMismatch <==>
                  r.verb == "GET" && r.path == "/callback" && (expected == [] || r.query.state != expected))
            && (answer == Gone <==>
                  r.verb == "GET" && r.path == "/callback" && expected != [] && r.query.state == expected
                  && FirstArmed(expected, actions) != [])
  {
    hide FirstArmed, Run;
    DeliversFirstArmed(expected, actions);
  }

  // ----- What the login makes of it -----

  const MAX_SHOWN := 512

  datatype Refusal =
    | WrongState
    // As shown on the terminal: without a code a fixed text stands in its place, without a description none.
    | ServerError(code: Option<seq<Byte>>, description: Option<seq<Byte>>)
    | NoCode

  function Display(text: seq<Byte>): Option<seq<Byte>> {
    var shown := Truncate(Sanitized(text), MAX_SHOWN);
    if shown == [] then None else Some(shown)
  }

  /** Option is the error: None for a result that may be exchanged. */
  function ValidateCallbackResult(res: CallbackResult, expected: seq<Byte>): Option<Refusal> {
    if res.state != expected then Some(WrongState)
    else if res.errorCode != [] then
      Some(ServerError(Display(res.errorCode), Display(res.errorDescription)))
    else if res.code == [] then Some(NoCode)
    else None
  }

  /** A login goes on exactly with a code, no error and the state it sent; what it shows of
      a server error is bounded, and valid text exactly when no cut split a rune. */
  lemma ValidationMeans(res: CallbackResult, expected: seq<Byte>)
    ensures var v := ValidateCallbackResult(res, expected);
            && (v == None <==> res.state == expected && res.errorCode == [] && res.code != [])
            && (v == Some(WrongState) <==> res.state != expected)
            && (v == Some(NoCode) <==> res.state == expected && res.errorCode == [] && res.code == [])
            && (v.Some? && v.value.ServerError? ==>
                  && Shown(res.errorCode, v.value.code) && Shown(res.errorDescription, v.value.description))
  {
    hide Display, Shown;
    DisplayShown(res.errorCode);
    DisplayShown(res.errorDescription);
  }

  /** What is shown of a server's text: nothing exactly when nothing of it is clean; else it is
      bounded, and valid exactly when no cut split a rune. */
  ghost predicate Shown(text: seq<Byte>, shown: Option<seq<Byte>>) {
    var clean := Sanitized(text);
    && (shown.None? <==> clean == [])
    && (shown.Some? ==>
          && |shown.value| <= MAX_SHOWN + 3
          && shown.value == (if |clean| <= 512 then clean else clean[..512] + [0xE2, 0x80, 0xA6])
          && (ValidUtf8(shown.value) <==> |clean| <= MAX_SHOWN || !Tail(clean[MAX_SHOWN])))
  }

  lemma DisplayShown(text: seq<Byte>)
    ensures Shown(text, Display(text))
  {
    hide Sanitized, ValidUtf8, Runes, Tail, KeptRunes, Kept;
    OutputIsClean(text);
    TruncateValidIff(Sanitized(text), MAX_SHOWN);
  }

  /** A result that Wait returns always carries the armed state, so the second check of it never fails. */
  lemma {:induction false} ReceivedStateMatches(expected: seq<Byte>, actions: seq<Action>)
    ensures forall r :: r in FirstArmed(expected, actions) ==> ValidateCallbackResult(r, expected) != Some(WrongState)
  {
    if actions != [] {
      ReceivedStateMatches(expected, actions[..|actions| - 1]);
    }
  }
}
