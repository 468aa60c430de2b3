/** The response writer that projects recorded notification failures
    (notificationErrorStatus, rememberNotificationError, notificationErrorWriter). */
module NotificationWriter {
  import opened Wrappers

  datatype Code = InvalidArgument | PermissionDenied | NotFound | AlreadyExists | Aborted | FailedPrecondition | Unavailable | OtherCode

  datatype Error = Plain | Status(code: Code, message: string)

  datatype Failure = Failure(error: string, operation: string, status: int)

  /** The gRPC code and HTTP status that belong to a reason. */
  const EXPECTED: map<string, (Code, int)> := map[
    "NOTIFICATION_INVALID" := (InvalidArgument, 400),
    "NOTIFICATION_RECIPIENT_INVALID" := (InvalidArgument, 400),
    "NOTIFICATION_FORBIDDEN" := (PermissionDenied, 403),
    "NOTIFICATION_NOT_FOUND" := (NotFound, 404),
    "NOTIFICATION_DUPLICATE" := (AlreadyExists, 409),
    "NOTIFICATION_VERSION_CONFLICT" := (Aborted, 409),
    "NOTIFICATION_REPLAY_CONFLICT" := (Aborted, 409),
    "NOTIFICATION_CHANNEL_UNAVAILABLE" := (FailedPrecondition, 412),
    "NOTIFICATION_UNAVAILABLE" := (Unavailable, 503)
  ]

  /** notificationErrorStatus: only a known reason with its own code counts. */
  function ErrorStatus(err: Error): Option<int> {
    if err.Status? && err.message in EXPECTED && EXPECTED[err.message].0 == err.code then Some(EXPECTED[err.message].1) else None
  }

  /** The failure that an application error would record. */
  function FailureOf(operation: string, err: Error): Option<Failure> {
    if ErrorStatus(err).None? then None else Some(Failure(err.message, operation, ErrorStatus(err).value))
  }

  /** The JSON line written for a failure. */
  function Line(f: Failure): string {
    "{\"error\":\"" + f.error + "\",\"operation\":\"" + f.operation + "\"}\n"
  }

  // --------------------------------------------------------------- the objects

  /** The first `n` bytes, or all of them. */
  function Clip(s: string, n: nat): string { if n < |s| then s[..n] else s }

  /** The wrapped response writer: what reached the client. How many bytes of a
      write it takes before it fails, if it does, is given by `taken`. */
  class Response {
    var statuses: seq<int>
    var body: string

    constructor ()
      ensures statuses == [] && body == ""
    {
      statuses, body := [], "";
    }

    method WriteHeader(code: int)
      modifies this
      ensures statuses == old(statuses) + [code] && body == old(body)
    {
      statuses := statuses + [code];
    }

    method Write(b: string, taken: nat) returns (n: nat, ok: bool)
      modifies this
      ensures body == old(body) + Clip(b, taken) && statuses == old(statuses)
      ensures n == |Clip(b, taken)| && (ok <==> n == |b|)
    {
      body := body + Clip(b, taken);
      n := |Clip(b, taken)|;
      ok := n == |b|;
    }
  }

  /** The outcome that the application wrapper and the writer share. */
  class Outcome {
    var failure: Option<Failure>

    constructor ()
      ensures failure.None?
    {
      failure := None;
    }

    /** rememberNotificationError: the first known failure stays. */
    method Remember(operation: string, err: Error)
      modifies this
      ensures failure == if old(failure).Some? then old(failure) else FailureOf(operation, err)
    {
      var found := FailureOf(operation, err);
      if found.Some? && failure.None? {
        failure := found;
      }
    }
  }

  class ErrorWriter {
    const response: Response
    const outcome: Outcome
    var written: bool
    var suppress: bool

    constructor (response: Response, outcome: Outcome)
      ensures this.response == response && this.outcome == outcome && !written && !suppress
    {
      this.response, this.outcome, this.written, this.suppress := response, outcome, false, false;
    }

    /** What the writer and its response look like from outside. */
    function Seen(): View
      reads this, response, outcome
    {
      View(written, suppress, outcome.failure, response.statuses, response.body)
    }

    method WriteHeader(code: int, taken: nat)
      modifies this, response
      ensures Seen() == Apply(old(Seen()), Header(code, taken))
    {
      if written {
        return;
      }
      written := true;
      if code >= 400 && outcome.failure.Some? {
        suppress := true;
        response.WriteHeader(outcome.failure.value.status);
        var _, _ := response.Write(Line(outcome.failure.value), taken);
        return;
      }
      response.WriteHeader(code);
    }

    /** Absorbed writes report their full length; others what the wrapped writer
        reports. */
    method Write(b: string, taken: nat) returns (n: nat, ok: bool)
      modifies this, response
      ensures Seen() == Apply(old(Seen()), Body(b, taken))
      ensures n == if suppress then |b| else |Clip(b, taken)|
      ensures ok <==> n == |b|
    {
      if !written {
        WriteHeader(200, 0);
      }
      if suppress {
        return |b|, true;
      }
      n, ok := response.Write(b, taken);
    }
  }

  // ----------------------------------------------------- every sequence of calls

  datatype View = View(written: bool, suppress: bool, failure: Option<Failure>, statuses: seq<int>, body: string)

  datatype Call = Remembered(operation: string, err: Error) | Header(code: int, taken: nat) | Body(bytes: string, taken: nat)

  const FRESH := View(false, false, None, [], "")

  function SendHeader(v: View, code: int, taken: nat): View {
    if v.written then v
    else if code >= 400 && v.failure.Some? then
      v.(written := true, suppress := true, statuses := v.statuses + [v.failure.value.status],
         body := v.body + Clip(Line(v.failure.value), taken))
    else v.(written := true, statuses := v.statuses + [code])
  }

  function Apply(v: View, c: Call): View {
    match c
    case Remembered(operation, err) => if v.failure.Some? then v else v.(failure := FailureOf(operation, err))
    case Header(code, taken) => SendHeader(v, code, taken)
    case Body(b, taken) =>
      var sent := SendHeader(v, 200, 0);
      if sent.suppress then sent else sent.(body := sent.body + Clip(b, taken))
  }

  function Run(v: View, calls: seq<Call>): View
    decreases |calls|
  {
    if calls == [] then v else Run(Apply(v, calls[0]), calls[1..])
  }

  /** The first failure that a sequence of calls records. */
  function FirstFailure(calls: seq<Call>): Option<Failure> {
    if calls == [] then None
    else if calls[0].Remembered? && FailureOf(calls[0].operation, calls[0].err).Some? then FailureOf(calls[0].operation, calls[0].err)
    else FirstFailure(calls[1..])
  }

  /** What the wrapped writer takes of a call's bytes. */
  function Accepted(c: Call): string { if c.Body? then Clip(c.bytes, c.taken) else "" }

  /** All bytes handed to Write and taken, in order. */
  function Bytes(calls: seq<Call>): string {
    if calls == [] then "" else Accepted(calls[0]) + Bytes(calls[1..])
  }

  /** The status a call asks for when it is the first to touch the response. */
  function Asked(c: Call): int
    requires !c.Remembered?
  {
    if c.Header? then c.code else 200
  }

  ghost predicate OnlyRemembers(calls: seq<Call>) { forall i :: 0 <= i < |calls| ==> calls[i].Remembered? }

  lemma {:induction false} RunBefore(v: View, calls: seq<Call>)
    requires OnlyRemembers(calls)
    ensures Run(v, calls) == v.(failure := if v.failure.Some? then v.failure else FirstFailure(calls))
    decreases |calls|
  {
    if calls != [] { RunBefore(Apply(v, calls[0]), calls[1..]); }
  }

  lemma Concatenated(x: string, y: string, z: string)
    ensures x + (y + z) == x + y + z
  {
  }

  lemma {:induction false} RunAfter(v: View, calls: seq<Call>)
    requires v.written
    ensures var w := Run(v, calls);
      && w.written && w.suppress == v.suppress && w.statuses == v.statuses
      && w.body == if v.suppress then v.body else v.body + Bytes(calls)
    decreases |calls|
  {
    if calls != [] {
      RunAfter(Apply(v, calls[0]), calls[1..]);
      Concatenated(v.body, Accepted(calls[0]), Bytes(calls[1..]));
    }
  }

  lemma {:induction false} RunSplit(v: View, a: seq<Call>, b: seq<Call>)
    ensures Run(v, a + b) == Run(Run(v, a), b)
    decreases |a|
  {
    if a == [] {
      assert a + b == b;
    } else {
      assert (a + b)[0] == a[0] && (a + b)[1..] == a[1..] + b;
      RunSplit(Apply(v, a[0]), a[1..], b);
    }
  }

  /** From the first call that touches an unsent response on. */
  lemma RunFromFirst(v: View, first: Call, after: seq<Call>)
    requires !v.written && !v.suppress && v.statuses == [] && v.body == "" && !first.Remembered?
    ensures var w := Run(Apply(v, first), after);
      if Asked(first) >= 400 && v.failure.Some?
      then w.statuses == [v.failure.value.status] && w.body == Clip(Line(v.failure.value), first.taken)
      else w.statuses == [Asked(first)] && w.body == Accepted(first) + Bytes(after)
  {
    RunAfter(Apply(v, first), after);
  }

  lemma RunThrough(v: View, before: seq<Call>, first: Call, after: seq<Call>)
    ensures Run(v, before + [first] + after) == Run(Apply(Run(v, before), first), after)
  {
    RunSplit(v, before + [first], after);
    RunSplit(v, before, [first]);
    assert [first][1..] == [];
    assert Run(Run(v, before), [first]) == Apply(Run(v, before), first);
  }

  /** Every run: nothing is sent until the first header or write. That call
      fixes the response. If it asks for an error status and a failure was
      recorded before it, the client gets exactly that failure, once; otherwise
      the asked status, once, and all written bytes unchanged. Where the wrapped
      writer fails it gets the part that was taken. */
  lemma EveryRun(before: seq<Call>, first: Call, after: seq<Call>)
    requires OnlyRemembers(before) && !first.Remembered?
    ensures Run(FRESH, before).statuses == [] && Run(FRESH, before).body == ""
    ensures var v, recorded := Run(FRESH, before + [first] + after), FirstFailure(before);
      if Asked(first) >= 400 && recorded.Some?
      then v.statuses == [recorded.value.status] && v.body == Clip(Line(recorded.value), first.taken)
      else v.statuses == [Asked(first)] && v.body == Bytes([first] + after)
  {
    RunBefore(FRESH, before);
    RunThrough(FRESH, before, first, after);
    RunFromFirst(Run(FRESH, before), first, after);
    assert ([first] + after)[1..] == after;
  }

  /** Every sequence of calls is of that form or never touches the response, so
      at most one status is ever sent. */
  lemma {:induction false} AtMostOneHeader(calls: seq<Call>)
    ensures |Run(FRESH, calls).statuses| <= 1
  {
    if OnlyRemembers(calls) {
      RunBefore(FRESH, calls);
    } else {
      var n := FirstTouch(calls);
      assert calls == calls[..n] + [calls[n]] + calls[n + 1..];
      EveryRun(calls[..n], calls[n], calls[n + 1..]);
    }
  }

  lemma {:induction false} FirstTouch(calls: seq<Call>) returns (n: nat)
    requires !OnlyRemembers(calls)
    ensures n < |calls| && !calls[n].Remembered? && OnlyRemembers(calls[..n])
  {
    n := 0;
    while calls[n].Remembered?
      invariant n < |calls| && OnlyRemembers(calls[..n]) && exists i :: n <= i < |calls| && !calls[i].Remembered?
      decreases |calls| - n
    {
      n := n + 1;
    }
  }
}
