/** The command-line client's request flow after the prompts: it submits the CSR, waits for
    the response, asks for the verification code, sends it to the verify path of the id it
    got back, and writes the certificate from the second response. Each handler the program
    registers (`data`, `end`, `error`, the code prompt settling) is an event here. The HTTPS
    exchange, the prompts and `JSON.parse` are outside the model: responses arrive as a
    status code and body chunks, the prompt as the entered text, parsing as a function. */
module CliFlow {
  import opened Wrappers
  import opened Json
  import opened CliRules

  /** The JSON documents the client posts: `{ csr }` and `{ verificationCode }`. */
  datatype Payload = CsrPayload(csr: string) | CodePayload(verificationCode: string)

  /** A POST to the server. */
  datatype Request = Request(path: string, payload: Payload)

  /** Where the client is. `Exited(code)` is a `process.exit(code)`; `Crashed` is an exception
      no handler catches (Node prints it and exits with code 1); `Done` is the end after the
      certificate file was written, when nothing is left to wait for. */
  datatype Phase =
    | AwaitingSubmitResponse
    | PromptingCode(id: Option<Json>)
    | AwaitingVerifyResponse
    | Done
    | Exited(code: int)
    | Crashed

  predicate Receiving(p: Phase) {
    p == AwaitingSubmitResponse || p == AwaitingVerifyResponse
  }

  predicate Terminal(p: Phase) {
    p == Done || p.Exited? || p == Crashed
  }

  /** The exit status of the process, once it has ended. */
  function ExitCode(p: Phase): (r: Option<int>)
    ensures r.Some? <==> Terminal(p)
  {
    match p
    case Done => Some(0)
    case Exited(code) => Some(code)
    case Crashed => Some(1)
    case _ => None
  }

  /** The client's state: its phase, the body of the response being received, the submit
      response as `JSON.parse` returned it once it was accepted (the outer `body` after
      `body = JSON.parse(body)`, from which `id` is read), the requests sent so far and the
      files it has written. */
  datatype ClientState = ClientState(phase: Phase, body: string, accepted: Option<Json>, sent: seq<Request>,
                                     files: map<string, string>)

  /** The state once the CSR has been read and the submit request written. */
  function Start(csr: string): ClientState {
    ClientState(AwaitingSubmitResponse, "", None, [Request(SUBMIT_PATH, CsrPayload(csr))], map[])
  }

  /** `body = body + data`. */
  function DataStep(s: ClientState, chunk: string): ClientState
    requires Receiving(s.phase)
  {
    s.(body := s.body + chunk)
  }

  /** The `end` handler of the submit response. `body['id']` throws when the body is `null`. */
  function SubmitEndStep(s: ClientState, statusCode: int, parse: string -> Option<Json>): ClientState
    requires s.phase == AwaitingSubmitResponse
  {
    match Accept(statusCode, s.body, parse)
    case None => s.(phase := Exited(1))
    case Some(j) =>
      var t := s.(accepted := Some(j));
      if j == JNull then t.(phase := Crashed) else t.(phase := PromptingCode(Property(j, "id")))
  }

  /** The code prompt settled: post the code to the verify path of the id received. When Node
      refuses that path, the exception rejects the prompt's promise and its `catch` exits with
      code 1, nothing sent. */
  function CodeStep(s: ClientState, verificationCode: string): ClientState
    requires s.phase.PromptingCode?
  {
    var path := VerifyPath(s.phase.id);
    if RequestablePath(path) then
      s.(phase := AwaitingVerifyResponse, body := "",
         sent := s.sent + [Request(path, CodePayload(verificationCode))])
    else
      s.(phase := Exited(1))
  }

  /** The `end` handler of the verify response: write `body['cert']` to `<email>.cert.pem`.
      Reading `cert` of `null` throws, and so does writing anything but a string. */
  function VerifyEndStep(s: ClientState, statusCode: int, parse: string -> Option<Json>,
                         emailAddress: string): ClientState
    requires s.phase == AwaitingVerifyResponse
  {
    match Accept(statusCode, s.body, parse)
    case None => s.(phase := Exited(1))
    case Some(j) =>
      if j == JNull then s.(phase := Crashed)
      else
        match Property(j, "cert")
        case Some(JString(cert)) => s.(phase := Done, files := s.files[CertFileName(emailAddress) := cert])
        case _ => s.(phase := Crashed)
  }

  /** A request's `error` event or the code prompt rejecting. */
  function ErrorStep(s: ClientState): ClientState
    requires !Terminal(s.phase)
  {
    s.(phase := Exited(1))
  }

  /** A submit response is used only when it is a 200 with a non-empty body that parses; any
      other response ends the client with exit code 1, and nothing but the phase changes. */
  lemma SubmitAcceptance(s: ClientState, statusCode: int, parse: string -> Option<Json>)
    requires s.phase == AwaitingSubmitResponse
    ensures var t := SubmitEndStep(s, statusCode, parse);
      && t.sent == s.sent && t.files == s.files
      && (t.phase.PromptingCode? <==>
            statusCode == 200 && s.body != "" && parse(s.body).Some? && parse(s.body).value != JNull)
      && (t.phase.PromptingCode? ==>
            t.accepted == parse(s.body) && t.phase.id == Property(parse(s.body).value, "id"))
      && (!t.phase.PromptingCode? ==> ExitCode(t.phase) == Some(1))
  {
  }

  /** The verify request goes to `/certificateSigningRequests/<id>/verify`, `<id>` being how
      the template prints the `id` of the accepted submit response, and carries the code. It is
      sent exactly when Node accepts that path; otherwise the client exits with code 1 and
      sends nothing. */
  lemma VerifyRequestTarget(s: ClientState, verificationCode: string)
    requires s.phase.PromptingCode?
    ensures var t := CodeStep(s, verificationCode);
      && t.files == s.files
      && (t.phase == AwaitingVerifyResponse <==> RequestablePath(TemplateText(s.phase.id)))
      && (t.phase == AwaitingVerifyResponse ==>
            && t.sent == s.sent + [Request(SUBMIT_PATH + "/" + TemplateText(s.phase.id) + "/verify",
                                           CodePayload(verificationCode))]
            && t.body == "")
      && (t.phase != AwaitingVerifyResponse ==> t.sent == s.sent && t.phase == Exited(1))
  {
    VerifyPathRequestable(s.phase.id);
  }

  /** The certificate file is written only after a 200 with a non-empty body that parses to a
      value whose `cert` is a string, and then it holds exactly that string; any other status,
      an empty body or one that does not parse ends the client with exit code 1. */
  lemma CertWrittenOnlyOnAcceptance(s: ClientState, statusCode: int, parse: string -> Option<Json>,
                                    emailAddress: string)
    requires s.phase == AwaitingVerifyResponse
    ensures var t := VerifyEndStep(s, statusCode, parse, emailAddress);
      && t.sent == s.sent
      && (t.phase == Done <==>
            && statusCode == 200 && s.body != "" && parse(s.body).Some? && parse(s.body).value.JObject?
            && "cert" in parse(s.body).value.fields && parse(s.body).value.fields["cert"].JString?)
      && (t.phase == Done ==>
            t.files == s.files[CertFileName(emailAddress) := parse(s.body).value.fields["cert"].s])
      && (t.phase != Done ==> t.files == s.files && ExitCode(t.phase) == Some(1))
      && (Accept(statusCode, s.body, parse).None? ==> t.phase == Exited(1))
  {
  }

  /** The events of a run. */
  datatype Event =
    | Data(chunk: string)
    | End(statusCode: int)
    | CodeEntered(verificationCode: string)
    | Failure

  /** One event. An event the program could not receive in the current phase (no handler for
      it is registered then) leaves the state as it is. */
  function Step(s: ClientState, e: Event, parse: string -> Option<Json>, emailAddress: string): ClientState {
    match e
    case Data(chunk) => if Receiving(s.phase) then DataStep(s, chunk) else s
    case End(statusCode) =>
      if s.phase == AwaitingSubmitResponse then SubmitEndStep(s, statusCode, parse)
      else if s.phase == AwaitingVerifyResponse then VerifyEndStep(s, statusCode, parse, emailAddress)
      else s
    case CodeEntered(code) => if s.phase.PromptingCode? then CodeStep(s, code) else s
    case Failure => if !Terminal(s.phase) then ErrorStep(s) else s
  }

  function Run(s: ClientState, events: seq<Event>, parse: string -> Option<Json>, emailAddress: string): ClientState
    decreases |events|
  {
    if events == [] then s else Run(Step(s, events[0], parse, emailAddress), events[1..], parse, emailAddress)
  }

  /** What holds of every state the client reaches: the submit request is the first one sent;
      the only other request is the verify request, sent after the submit response was
      accepted and before the verify response, to the verify path of that response's `id` and
      carrying a code; a file exists only at the end after a successful verify, and it is the
      certificate file of the entered address. */
  predicate Inv(s: ClientState, csr: string, emailAddress: string) {
    && |s.sent| >= 1 && s.sent[0] == Request(SUBMIT_PATH, CsrPayload(csr))
    && (s.phase == AwaitingSubmitResponse ==> s.accepted.None?)
    && (s.phase.PromptingCode? ==>
          s.accepted.Some? && s.accepted.value != JNull && s.phase.id == Property(s.accepted.value, "id"))
    && (|s.sent| == 2 ==>
          && s.accepted.Some? && s.accepted.value != JNull
          && s.sent[1].path == VerifyPath(Property(s.accepted.value, "id")) && s.sent[1].payload.CodePayload?
          && RequestablePath(s.sent[1].path))
    && (s.phase == AwaitingSubmitResponse || s.phase.PromptingCode? ==> |s.sent| == 1)
    && (s.phase == AwaitingVerifyResponse || s.phase == Done ==> |s.sent| == 2)
    && |s.sent| <= 2
    && (s.files != map[] <==> s.phase == Done)
    && s.files.Keys <= {CertFileName(emailAddress)}
  }

  lemma StartInv(csr: string, emailAddress: string)
    ensures Inv(Start(csr), csr, emailAddress)
  {
  }

  lemma StepKeepsInv(s: ClientState, e: Event, parse: string -> Option<Json>, csr: string, emailAddress: string)
    requires Inv(s, csr, emailAddress)
    ensures Inv(Step(s, e, parse, emailAddress), csr, emailAddress)
  {
    if e.CodeEntered? && s.phase.PromptingCode? {
      assert CodeStep(s, e.verificationCode).sent[0] == s.sent[0];
    }
    var t := Step(s, e, parse, emailAddress);
    if t.phase == Done && s.phase != Done {
      assert CertFileName(emailAddress) in t.files;
    }
  }

  /** Every run from the start keeps the invariant. */
  lemma {:induction false} RunKeepsInv(s: ClientState, events: seq<Event>, parse: string -> Option<Json>,
                                       csr: string, emailAddress: string)
    requires Inv(s, csr, emailAddress)
    ensures Inv(Run(s, events, parse, emailAddress), csr, emailAddress)
    decreases |events|
  {
    if events != [] {
      StepKeepsInv(s, events[0], parse, csr, emailAddress);
      RunKeepsInv(Step(s, events[0], parse, emailAddress), events[1..], parse, csr, emailAddress);
    }
  }

  /** Once the client has ended, nothing changes any more. */
  lemma {:induction false} TerminalIsFinal(s: ClientState, events: seq<Event>, parse: string -> Option<Json>,
                                           emailAddress: string)
    requires Terminal(s.phase)
    ensures Run(s, events, parse, emailAddress) == s
    decreases |events|
  {
    if events != [] {
      TerminalIsFinal(s, events[1..], parse, emailAddress);
    }
  }

  /** The body a handler sees is the concatenation of the chunks received. */
  function Concat(chunks: seq<string>): string
    decreases |chunks|
  {
    if chunks == [] then "" else Concat(chunks[..|chunks| - 1]) + chunks[|chunks| - 1]
  }

  function DataEvents(chunks: seq<string>): seq<Event> {
    seq(|chunks|, i requires 0 <= i < |chunks| => Data(chunks[i]))
  }

  lemma {:induction false} ReceiveChunks(s: ClientState, chunks: seq<string>, parse: string -> Option<Json>,
                                         emailAddress: string)
    requires Receiving(s.phase)
    ensures Run(s, DataEvents(chunks), parse, emailAddress) == s.(body := s.body + Concat(chunks))
    decreases |chunks|
  {
    if chunks != [] {
      var t := Step(s, Data(chunks[0]), parse, emailAddress);
      assert DataEvents(chunks)[1..] == DataEvents(chunks[1..]);
      ReceiveChunks(t, chunks[1..], parse, emailAddress);
      ConcatCons(chunks);
    } else {
      assert s.body + "" == s.body;
    }
  }

  lemma {:induction false} ConcatCons(chunks: seq<string>)
    requires chunks != []
    ensures Concat(chunks) == chunks[0] + Concat(chunks[1..])
    decreases |chunks|
  {
    if |chunks| == 1 {
      assert chunks[..0] == [];
      assert chunks[1..] == [];
    } else {
      var init, last := chunks[..|chunks| - 1], chunks[|chunks| - 1];
      ConcatCons(init);
      var tail := chunks[1..];
      assert init[1..] == tail[..|tail| - 1] && tail[|tail| - 1] == last;
      assert Concat(tail) == Concat(init[1..]) + last;
      assert init[0] == chunks[0];
      assert Concat(chunks) == (chunks[0] + Concat(init[1..])) + last;
    }
  }

  /** The whole exchange when both responses are good: the client posts the CSR, then the code
      to the verify path of the returned id, and leaves exactly one file, `<email>.cert.pem`,
      holding the returned certificate. */
  lemma HappyPath(csr: string, emailAddress: string, parse: string -> Option<Json>,
                  submitBody: string, id: string, verificationCode: string, verifyBody: string, cert: string)
    requires submitBody != "" && verifyBody != ""
    requires parse(submitBody).Some? && parse(submitBody).value.JObject?
    requires "id" in parse(submitBody).value.fields && parse(submitBody).value.fields["id"] == JString(id)
    requires RequestablePath(id)
    requires parse(verifyBody).Some? && parse(verifyBody).value.JObject?
    requires "cert" in parse(verifyBody).value.fields && parse(verifyBody).value.fields["cert"] == JString(cert)
    ensures var t := Run(Start(csr),
                         [Data(submitBody), End(200), CodeEntered(verificationCode), Data(verifyBody), End(200)],
                         parse, emailAddress);
      && t.phase == Done && ExitCode(t.phase) == Some(0)
      && t.accepted == parse(submitBody)
      && t.sent == [Request(SUBMIT_PATH, CsrPayload(csr)),
                    Request(SUBMIT_PATH + "/" + id + "/verify", CodePayload(verificationCode))]
      && t.files == map[CertFileName(emailAddress) := cert]
  {
    var submitted := Run(Start(csr), [Data(submitBody), End(200)], parse, emailAddress);
    HappySubmit(csr, emailAddress, parse, submitBody, id);
    var prompted := Run(submitted, [CodeEntered(verificationCode)], parse, emailAddress);
    assert prompted == CodeStep(submitted, verificationCode) by {
      var e := [CodeEntered(verificationCode)];
      assert e[0] == CodeEntered(verificationCode) && e[1..] == [];
      assert submitted.phase.PromptingCode?;
      var t := Step(submitted, e[0], parse, emailAddress);
      assert t == CodeStep(submitted, verificationCode);
      assert Run(t, e[1..], parse, emailAddress) == t;
    }
    assert VerifyPath(Some(JString(id))) == SUBMIT_PATH + "/" + id + "/verify";
    VerifyPathRequestable(Some(JString(id)));
    HappyVerify(prompted, emailAddress, parse, verifyBody, cert);
    RunConcat(Start(csr), [Data(submitBody), End(200)], [CodeEntered(verificationCode)], parse, emailAddress);
    RunConcat(Start(csr), [Data(submitBody), End(200)] + [CodeEntered(verificationCode)],
              [Data(verifyBody), End(200)], parse, emailAddress);
    assert [Data(submitBody), End(200)] + [CodeEntered(verificationCode)] + [Data(verifyBody), End(200)]
        == [Data(submitBody), End(200), CodeEntered(verificationCode), Data(verifyBody), End(200)];
  }

  /** A good submit response, received in one chunk, leads to the code prompt. */
  lemma HappySubmit(csr: string, emailAddress: string, parse: string -> Option<Json>, submitBody: string, id: string)
    requires submitBody != ""
    requires parse(submitBody).Some? && parse(submitBody).value.JObject?
    requires "id" in parse(submitBody).value.fields && parse(submitBody).value.fields["id"] == JString(id)
    ensures Run(Start(csr), [Data(submitBody), End(200)], parse, emailAddress)
         == ClientState(PromptingCode(Some(JString(id))), submitBody, parse(submitBody),
                        [Request(SUBMIT_PATH, CsrPayload(csr))], map[])
  {
    var events := [Data(submitBody), End(200)];
    var s1 := Step(Start(csr), events[0], parse, emailAddress);
    assert s1.body == submitBody;
    assert Run(s1, events[1..], parse, emailAddress) == Step(s1, events[1], parse, emailAddress) by {
      assert events[1..][1..] == [];
    }
  }

  /** A good verify response, received in one chunk, writes the certificate file and ends. */
  lemma HappyVerify(s: ClientState, emailAddress: string, parse: string -> Option<Json>, verifyBody: string, cert: string)
    requires s.phase == AwaitingVerifyResponse && s.body == "" && verifyBody != ""
    requires parse(verifyBody).Some? && parse(verifyBody).value.JObject?
    requires "cert" in parse(verifyBody).value.fields && parse(verifyBody).value.fields["cert"] == JString(cert)
    ensures Run(s, [Data(verifyBody), End(200)], parse, emailAddress)
         == s.(phase := Done, body := verifyBody, files := s.files[CertFileName(emailAddress) := cert])
  {
    var events := [Data(verifyBody), End(200)];
    var s1 := Step(s, events[0], parse, emailAddress);
    assert s1.body == verifyBody;
    assert Run(s1, events[1..], parse, emailAddress) == Step(s1, events[1], parse, emailAddress) by {
      assert events[1..][1..] == [];
    }
  }

  /** Running two event sequences one after the other is running their concatenation. */
  lemma {:induction false} RunConcat(s: ClientState, first: seq<Event>, second: seq<Event>,
                                     parse: string -> Option<Json>, emailAddress: string)
    ensures Run(s, first + second, parse, emailAddress) == Run(Run(s, first, parse, emailAddress), second, parse, emailAddress)
    decreases |first|
  {
    if first == [] {
      assert first + second == second;
    } else {
      assert (first + second)[1..] == first[1..] + second;
      RunConcat(Step(s, first[0], parse, emailAddress), first[1..], second, parse, emailAddress);
    }
  }

  /** The client process. `emailAddress` is the answer to the email prompt and `csr` the CSR
      file openssl wrote; the handlers below are the program's callbacks. */
  class Client {
    const csr: string
    const emailAddress: string
    var phase: Phase
    var body: string
    var accepted: Option<Json>
    var sent: seq<Request>
    var files: map<string, string>

    function State(): ClientState
      reads this
    {
      ClientState(phase, body, accepted, sent, files)
    }

    ghost predicate Valid()
      reads this
    {
      Inv(State(), csr, emailAddress)
    }

    /** Post `{ csr }` to the collection path. */
    constructor(answers: Answers, csr: string)
      ensures Valid() && State() == Start(csr)
      ensures this.csr == csr && emailAddress == answers.emailAddress
    {
      this.csr := csr;
      emailAddress := answers.emailAddress;
      phase := AwaitingSubmitResponse;
      body := "";
      accepted := None;
      sent := [Request(SUBMIT_PATH, CsrPayload(csr))];
      files := map[];
    }

    /** `response.on('data', data => { body = body + data })`. */
    method OnData(chunk: string)
      requires Valid() && Receiving(phase)
      modifies this
      ensures Valid() && State() == DataStep(old(State()), chunk)
    {
      body := body + chunk;
    }

    /** `response.on('end', ...)` of the submit response. */
    method OnSubmitEnd(statusCode: int, parse: string -> Option<Json>)
      requires Valid() && phase == AwaitingSubmitResponse
      modifies this
      ensures Valid() && State() == SubmitEndStep(old(State()), statusCode, parse)
    {
      StepKeepsInv(State(), End(statusCode), parse, csr, emailAddress);
      if statusCode == 200 {
        if body == "" {
          phase := Exited(1);
          return;
        }
        var parsed := parse(body);
        if parsed.None? {
          phase := Exited(1);
          return;
        }
        accepted := parsed;
        if parsed.value == JNull {
          phase := Crashed;
          return;
        }
        var id := Property(parsed.value, "id");
        phase := PromptingCode(id);
      } else {
        phase := Exited(1);
      }
    }

    /** The code prompt resolved with `verificationCode`: post it to the verify path. */
    method OnCodeEntered(verificationCode: string)
      requires Valid() && phase.PromptingCode?
      modifies this
      ensures Valid() && State() == CodeStep(old(State()), verificationCode)
    {
      StepKeepsInv(State(), CodeEntered(verificationCode), x => None, csr, emailAddress);
      var path := VerifyPath(phase.id);
      if !RequestablePath(path) {
        phase := Exited(1);
        return;
      }
      sent := sent + [Request(path, CodePayload(verificationCode))];
      body := "";
      phase := AwaitingVerifyResponse;
    }

    /** `response.on('end', ...)` of the verify response. */
    method OnVerifyEnd(statusCode: int, parse: string -> Option<Json>)
      requires Valid() && phase == AwaitingVerifyResponse
      modifies this
      ensures Valid() && State() == VerifyEndStep(old(State()), statusCode, parse, emailAddress)
    {
      StepKeepsInv(State(), End(statusCode), parse, csr, emailAddress);
      if statusCode == 200 {
        if body == "" {
          phase := Exited(1);
          return;
        }
        var parsed := parse(body);
        if parsed.None? {
          phase := Exited(1);
          return;
        }
        if parsed.value == JNull {
          phase := Crashed;
          return;
        }
        var cert := Property(parsed.value, "cert");
        if cert.Some? && cert.value.JString? {
          files := files[CertFileName(emailAddress) := cert.value.s];
          phase := Done;
        } else {
          phase := Crashed;
        }
      } else {
        phase := Exited(1);
      }
    }

    /** A request's `error` handler, or the `catch` of the code prompt. */
    method OnError()
      requires Valid() && !Terminal(phase)
      modifies this
      ensures Valid() && State() == ErrorStep(old(State()))
    {
      StepKeepsInv(State(), Failure, x => None, csr, emailAddress);
      phase := Exited(1);
    }
  }
}
