/** The server's certificate-signing-request resource: the MongoDB collection of request
    records and the two REST methods, `certificateSigningRequests.insert` and
    `certificateSigningRequests.verify`, as they are written. Requests are handled one at a
    time. Everything the handlers ask of the outside world (openssl's output, the mail
    delivery, the clock, the generated identifiers, the signed certificate read back from
    disk) is an input. */
module RequestStore {
  import opened Wrappers
  import opened Subject
  import opened Eligibility

  /** A record's `_id`, as the text the server prints with `${...}`. */
  type Id = string

  /** A `Date`, as milliseconds since the epoch. */
  type Timestamp = int

  const STATUS_CODE_OK: int := 200
  const STATUS_CODE_BAD_REQUEST: int := 400
  const STATUS_CODE_NOT_FOUND: int := 404
  const STATUS_CODE_INTERNAL_SERVER_ERROR: int := 500
  const STATUS_BAD_REQUEST: string := "BAD_REQUEST"
  const STATUS_NOT_FOUND: string := "NOT_FOUND"
  const STATUS_INTERNAL_SERVER_ERROR: string := "INTERNAL_SERVER_ERROR"

  /** The `status` of a record. `Failed` exists in the program but no handler assigns it. */
  datatype Status = Pending | Verified | Failed {
    function Name(): string {
      match this
      case Pending => "PENDING"
      case Verified => "VERIFIED"
      case Failed => "FAILED"
    }

    /** The status message the handlers store with this status. */
    function Message(): StatusMessage {
      match this
      case Pending => PendingMessage
      case Verified => VerifiedMessage
      case Failed => FailedMessage
    }
  }

  /** The three `STATUS_MESSAGE_*` constants; a record's `statusMessage` is always one of them. */
  datatype StatusMessage = PendingMessage | VerifiedMessage | FailedMessage {
    function Text(): string {
      match this
      case PendingMessage => "Pending email verification. Please check your inbox."
      case VerifiedMessage => "Email address has been verified. Certificate signing request has been granted."
      case FailedMessage => "The certificate signing request has been denied."
    }
  }

  /** One document of the `certificateSigningRequests` collection (its `_id` is the key
      under which the collection holds it). */
  datatype Record = Record(
    createdAt: Timestamp,
    modifiedAt: Timestamp,
    accessedAt: Timestamp,
    csr: string,
    status: Status,
    statusMessage: StatusMessage,
    cert: string,
    verificationCode: string)

  /** What every stored record satisfies, given the two handlers below: the status message
      is the one of its status, no record is ever FAILED, and a PENDING record has no
      certificate and has not been modified since it was created. */
  predicate WellFormed(r: Record) {
    && r.statusMessage == r.status.Message()
    && r.status != Failed
    && (r.status == Pending ==> r.cert == "" && r.modifiedAt == r.createdAt)
  }

  /** The `$set` documents the verify handler passes to `findOneAndUpdate`. */
  datatype Update =
    | SetAccessedAt(now: Timestamp)
    | SetVerified(now: Timestamp, cert: string)

  function Apply(u: Update, r: Record): Record {
    match u
    case SetAccessedAt(now) => r.(accessedAt := now)
    case SetVerified(now, cert) =>
      r.(modifiedAt := now, status := Verified, statusMessage := Verified.Message(), cert := cert)
  }

  /** The document the insert handler writes. */
  function PendingRecord(csr: string, now: Timestamp, verificationCode: string): (r: Record)
    ensures WellFormed(r) && r.status == Pending
  {
    Record(now, now, now, csr, Pending, Pending.Message(), "", verificationCode)
  }

  /** A record after a verify request with the matching code and a readable certificate:
      touched, then set VERIFIED with the certificate, whatever its status was. */
  function VerifiedRecord(r: Record, now: Timestamp, cert: string): (v: Record)
    ensures WellFormed(v) && v.status == Verified && v.cert == cert
    ensures v.modifiedAt == now && v.accessedAt == now
    ensures v.createdAt == r.createdAt && v.csr == r.csr && v.verificationCode == r.verificationCode
  {
    Apply(SetVerified(now, cert), Apply(SetAccessedAt(now), r))
  }

  /** The body of a response. A resource body has no verification code at all, and its
      certificate is present only when `cert` is `Some`. `ErrorPage` is the page Express's
      default error handler sends for an exception the handler does not catch; it is not
      JSON. */
  datatype Body =
    | Resource(id: Id, createdAt: Timestamp, modifiedAt: Timestamp, accessedAt: Timestamp,
               csr: string, status: string, statusMessage: StatusMessage, cert: Option<string>)
    | Error(code: int, message: ErrorMessage, status: string)
    | ErrorPage

  datatype Reply = Reply(statusCode: int, body: Body)

  function ErrorReply(code: int, status: string, message: ErrorMessage): Reply {
    Reply(code, Error(code, message, status))
  }

  /** The resource body the handlers build from a record. */
  function View(id: Id, r: Record, cert: Option<string>): Body {
    Resource(id, r.createdAt, r.modifiedAt, r.accessedAt, r.csr, r.status.Name(), r.statusMessage, cert)
  }

  /** The shape every reply has: 200 with a resource, or an error status with an error body
      repeating that status. */
  predicate WellFormedReply(reply: Reply) {
    && (reply.statusCode == STATUS_CODE_OK <==> reply.body.Resource?)
    && (reply.body.Error? ==> reply.body.code == reply.statusCode)
    && (reply.body.Error? ==> reply.statusCode in {STATUS_CODE_BAD_REQUEST, STATUS_CODE_NOT_FOUND,
                                                   STATUS_CODE_INTERNAL_SERVER_ERROR})
    && (reply.body.ErrorPage? ==> reply.statusCode == STATUS_CODE_INTERNAL_SERVER_ERROR)
  }

  /** The error messages of the two handlers, by the values they mention. */
  datatype ErrorMessage =
    | EmailNotValid(email: Option<string>)
    | InsertError(reason: string)
    | ResourceIdMalformed(resourceId: string, reason: string)
    | ResourceNotFound(resourceId: string)
    | CodeIncorrect(submittedCode: Option<string>)
    | VerifyError(resourceId: string, reason: string)
  {
    /** The `message` text of the error body. */
    function Text(): string {
      match this
      case EmailNotValid(email) => "Email address '" + TemplateText(email) + "' is not valid."
      case InsertError(reason) => "Unexpected error occurred when inserting resource: " + reason
      case ResourceIdMalformed(resourceId, reason) =>
        "Resource ID '" + resourceId + "' is malformed: " + reason
      case ResourceNotFound(resourceId) => "Resource '" + resourceId + "' was not found."
      case CodeIncorrect(code) => "Verification code '" + TemplateText(code) + "' is incorrect."
      case VerifyError(resourceId, reason) =>
        "Unexpected error occurred when verifying resource '" + resourceId + "': " + reason
    }
  }

  function BadRequest(message: ErrorMessage): Reply {
    ErrorReply(STATUS_CODE_BAD_REQUEST, STATUS_BAD_REQUEST, message)
  }

  function NotFound(message: ErrorMessage): Reply {
    ErrorReply(STATUS_CODE_NOT_FOUND, STATUS_NOT_FOUND, message)
  }

  function InternalError(message: ErrorMessage): Reply {
    ErrorReply(STATUS_CODE_INTERNAL_SERVER_ERROR, STATUS_INTERNAL_SERVER_ERROR, message)
  }

  /** `${v}` for a value that is a string or `undefined`. */
  function TemplateText(v: Option<string>): string {
    match v
    case None => "undefined"
    case Some(s) => s
  }

  /** The 400 of the insert handler for an ineligible address. */
  function IneligibleEmail(email: Option<string>): Reply {
    BadRequest(EmailNotValid(email))
  }

  /** Express's answer when the handler throws outside its promise chain: 500 and the
      default error page. */
  function UncaughtException(): Reply {
    Reply(STATUS_CODE_INTERNAL_SERVER_ERROR, ErrorPage)
  }

  /** The 500 of the insert handler when a promise of the chain was rejected. */
  function InsertFailure(reason: string): Reply {
    InternalError(InsertError(reason))
  }

  /** The 400 of the verify handler when `mongo.ObjectId` throws. */
  function MalformedId(resourceId: string, reason: string): Reply {
    BadRequest(ResourceIdMalformed(resourceId, reason))
  }

  /** The 404 of the verify handler. */
  function UnknownResource(resourceId: string): Reply {
    NotFound(ResourceNotFound(resourceId))
  }

  /** The 400 of the verify handler for a code that does not match. */
  function IncorrectCode(submittedCode: Option<string>): Reply {
    BadRequest(CodeIncorrect(submittedCode))
  }

  /** The 500 of the verify handler when a step after the lookup threw. */
  function VerifyFailure(resourceId: string, reason: string): Reply {
    InternalError(VerifyError(resourceId, reason))
  }

  /** Where the insert handler stores a CSR before signing. */
  function CsrPath(emailAddress: string): string {
    "/root/ca/intermediate/csr/" + emailAddress + ".csr.pem"
  }

  /** The fields no handler ever changes, and no record ever disappears. */
  predicate Preserved(before: map<Id, Record>, after: map<Id, Record>) {
    && before.Keys <= after.Keys
    && forall id | id in before ::
         && after[id].createdAt == before[id].createdAt
         && after[id].csr == before[id].csr
         && after[id].verificationCode == before[id].verificationCode
  }

  /** Every record of a collection is well formed. */
  predicate AllWellFormed(docs: map<Id, Record>) {
    forall id | id in docs :: WellFormed(docs[id])
  }

  lemma StoreKeepsWellFormed(docs: map<Id, Record>, id: Id, r: Record)
    requires AllWellFormed(docs) && WellFormed(r)
    ensures AllWellFormed(docs[id := r])
  {
  }

  lemma ReplaceKeepsPreserved(docs: map<Id, Record>, id: Id, r: Record)
    requires id in docs
    requires r.createdAt == docs[id].createdAt && r.csr == docs[id].csr
    requires r.verificationCode == docs[id].verificationCode
    ensures Preserved(docs, docs[id := r]) && docs[id := r].Keys == docs.Keys
  {
  }

  lemma AddKeepsPreserved(docs: map<Id, Record>, id: Id, r: Record)
    requires id !in docs
    ensures Preserved(docs, docs[id := r])
  {
  }

  lemma AddRecord(docs: map<Id, Record>, id: Id, r: Record)
    ensures docs[id := r].Keys == docs.Keys + {id} && docs[id := r][id] == r
    ensures forall other | other in docs && other != id :: docs[id := r][other] == docs[other]
  {
  }

  /** A message handed to `sendMail`: the verification code, to the subject's address. The
      sender, the subject line and the text around the code are fixed and not modelled. */
  datatype Mail = Mail(to: string, verificationCode: string)

  /** What an insert request leaves behind: the collection, the CSR files, the messages handed
      to the mailer and the reply. */
  datatype InsertOutcome = InsertOutcome(docs: map<Id, Record>, csrFiles: map<string, string>,
                                         outbox: seq<Mail>, reply: Reply)

  /** The insert handler, one request at a time: check the subject's address, write the CSR
      file, send the mail, and only once it is sent insert the PENDING record and answer with it.
      `csrWrite` is how `fs.writeFileSync` ended; when it throws, the exception leaves the
      handler before the mail, and Express answers with its error page. */
  function InsertSpec(docs: map<Id, Record>, csrFiles: map<string, string>, outbox: seq<Mail>,
                      csr: string, subjectLine: string, newId: Id, now: Timestamp,
                      verificationCode: string, csrWrite: Outcome, mail: Outcome): InsertOutcome
  {
    var email := SubjectEmail(subjectLine);
    if !ValidEmailAddress(email) then InsertOutcome(docs, csrFiles, outbox, IneligibleEmail(email))
    else
      ValidEmailAddressNeedsAt(None);
      match csrWrite
      case Fail(_) => InsertOutcome(docs, csrFiles, outbox, UncaughtException())
      case Pass =>
        var written := csrFiles[CsrPath(email.value) := csr];
        var mailed := outbox + [Mail(email.value, verificationCode)];
        match mail
        case Fail(reason) => InsertOutcome(docs, written, mailed, InsertFailure(reason))
        case Pass =>
          var doc := PendingRecord(csr, now, verificationCode);
          InsertOutcome(docs[newId := doc], written, mailed, Reply(STATUS_CODE_OK, View(newId, doc, None)))
  }

  /** An insert keeps every record well formed, loses nothing, changes no existing record,
      hands at most one message to the mailer and answers with a well-formed reply. */
  lemma InsertKeepsStoreInvariant(docs: map<Id, Record>, csrFiles: map<string, string>, outbox: seq<Mail>,
                                  csr: string, subjectLine: string, newId: Id, now: Timestamp,
                                  verificationCode: string, csrWrite: Outcome, mail: Outcome)
    requires AllWellFormed(docs) && newId !in docs
    ensures var r := InsertSpec(docs, csrFiles, outbox, csr, subjectLine, newId, now, verificationCode,
                                csrWrite, mail);
      && AllWellFormed(r.docs) && Preserved(docs, r.docs) && WellFormedReply(r.reply)
      && (forall id | id in docs :: id in r.docs && r.docs[id] == docs[id])
      && outbox <= r.outbox && |r.outbox| <= |outbox| + 1
  {
    var email := SubjectEmail(subjectLine);
    var r := InsertSpec(docs, csrFiles, outbox, csr, subjectLine, newId, now, verificationCode, csrWrite, mail);
    if !ValidEmailAddress(email) {
      assert r == InsertOutcome(docs, csrFiles, outbox, IneligibleEmail(email));
    } else if csrWrite.Fail? {
      ValidEmailAddressNeedsAt(None);
      assert r == InsertOutcome(docs, csrFiles, outbox, UncaughtException());
    } else {
      ValidEmailAddressNeedsAt(None);
      var written := csrFiles[CsrPath(email.value) := csr];
      var mailed := outbox + [Mail(email.value, verificationCode)];
      match mail
      case Fail(reason) => assert r == InsertOutcome(docs, written, mailed, InsertFailure(reason));
      case Pass =>
        var doc := PendingRecord(csr, now, verificationCode);
        assert r == InsertOutcome(docs[newId := doc], written, mailed, Reply(STATUS_CODE_OK, View(newId, doc, None)));
        StoreKeepsWellFormed(docs, newId, doc);
        AddKeepsPreserved(docs, newId, doc);
        AddRecord(docs, newId, doc);
    }
  }

  /** The answer is 400 exactly when the subject's address is not eligible, and then the
      request has no effect at all: no record, no CSR file, no mail. */
  lemma InsertRejectsIneligible(docs: map<Id, Record>, csrFiles: map<string, string>, outbox: seq<Mail>,
                                csr: string, subjectLine: string, newId: Id, now: Timestamp,
                                verificationCode: string, csrWrite: Outcome, mail: Outcome)
    ensures var r := InsertSpec(docs, csrFiles, outbox, csr, subjectLine, newId, now, verificationCode,
                                csrWrite, mail);
      && (r.reply.statusCode == STATUS_CODE_BAD_REQUEST <==> !ValidEmailAddress(SubjectEmail(subjectLine)))
      && (r.reply.statusCode == STATUS_CODE_BAD_REQUEST ==>
            && r.reply == IneligibleEmail(SubjectEmail(subjectLine))
            && r.docs == docs && r.csrFiles == csrFiles && r.outbox == outbox)
  {
    var email := SubjectEmail(subjectLine);
    var r := InsertSpec(docs, csrFiles, outbox, csr, subjectLine, newId, now, verificationCode, csrWrite, mail);
    if ValidEmailAddress(email) {
      ValidEmailAddressNeedsAt(None);
      assert r.reply.statusCode == STATUS_CODE_INTERNAL_SERVER_ERROR || r.reply.statusCode == STATUS_CODE_OK;
    }
  }

  /** When writing the CSR file throws, the handler stops there: no file, no mail, no record,
      and the answer is Express's 500 error page. */
  lemma InsertWriteFailureStops(docs: map<Id, Record>, csrFiles: map<string, string>, outbox: seq<Mail>,
                                csr: string, subjectLine: string, newId: Id, now: Timestamp,
                                verificationCode: string, csrWrite: Outcome, mail: Outcome)
    requires ValidEmailAddress(SubjectEmail(subjectLine)) && csrWrite.Fail?
    ensures var r := InsertSpec(docs, csrFiles, outbox, csr, subjectLine, newId, now, verificationCode,
                                csrWrite, mail);
      && r.docs == docs && r.csrFiles == csrFiles && r.outbox == outbox
      && r.reply.statusCode == STATUS_CODE_INTERNAL_SERVER_ERROR && r.reply.body == ErrorPage
  {
    ValidEmailAddressNeedsAt(None);
  }

  /** Once the CSR file is written under the address, the code is mailed to that address;
      when the mail is not sent the answer is 500 with the mailer's reason and no record is
      inserted. */
  lemma InsertMailFailureInsertsNothing(docs: map<Id, Record>, csrFiles: map<string, string>, outbox: seq<Mail>,
                                        csr: string, subjectLine: string, newId: Id, now: Timestamp,
                                        verificationCode: string, csrWrite: Outcome, mail: Outcome)
    requires ValidEmailAddress(SubjectEmail(subjectLine)) && csrWrite.Pass?
    ensures SubjectEmail(subjectLine).Some?
    ensures var r := InsertSpec(docs, csrFiles, outbox, csr, subjectLine, newId, now, verificationCode,
                                csrWrite, mail);
      && r.csrFiles == csrFiles[CsrPath(SubjectEmail(subjectLine).value) := csr]
      && r.outbox == outbox + [Mail(SubjectEmail(subjectLine).value, verificationCode)]
      && (mail.Fail? ==>
            && r.reply.statusCode == STATUS_CODE_INTERNAL_SERVER_ERROR
            && r.reply == InsertFailure(mail.reason)
            && r.docs == docs)
  {
    ValidEmailAddressNeedsAt(None);
    var email := SubjectEmail(subjectLine);
    assert email.Some?;
    var written := csrFiles[CsrPath(email.value) := csr];
    var mailed := outbox + [Mail(email.value, verificationCode)];
    var r := InsertSpec(docs, csrFiles, outbox, csr, subjectLine, newId, now, verificationCode, csrWrite, mail);
    match mail
    case Fail(reason) => assert r == InsertOutcome(docs, written, mailed, InsertFailure(reason));
    case Pass => assert r.csrFiles == written && r.outbox == mailed;
  }

  /** The answer is 200 exactly when the address is eligible, the CSR file was written and the
      mail was sent. Then exactly one record, under the new id, is added: PENDING, without
      certificate, created, modified and accessed now, holding the CSR and the mailed code; the
      reply describes it and carries neither the certificate nor the code. */
  lemma InsertCreatesPendingRecord(docs: map<Id, Record>, csrFiles: map<string, string>, outbox: seq<Mail>,
                                   csr: string, subjectLine: string, newId: Id, now: Timestamp,
                                   verificationCode: string, csrWrite: Outcome, mail: Outcome)
    ensures var r := InsertSpec(docs, csrFiles, outbox, csr, subjectLine, newId, now, verificationCode,
                                csrWrite, mail);
      && (r.reply.statusCode == STATUS_CODE_OK <==>
            ValidEmailAddress(SubjectEmail(subjectLine)) && csrWrite.Pass? && mail.Pass?)
      && (r.reply.statusCode == STATUS_CODE_OK ==>
            && r.docs.Keys == docs.Keys + {newId}
            && (forall id | id in docs && id != newId :: r.docs[id] == docs[id])
            && r.docs[newId].status == Pending && r.docs[newId].statusMessage == Pending.Message()
            && r.docs[newId].cert == ""
            && r.docs[newId].createdAt == now && r.docs[newId].modifiedAt == now
            && r.docs[newId].accessedAt == now
            && r.docs[newId].csr == csr && r.docs[newId].verificationCode == verificationCode
            && r.reply.body == View(newId, r.docs[newId], None))
  {
    var email := SubjectEmail(subjectLine);
    var r := InsertSpec(docs, csrFiles, outbox, csr, subjectLine, newId, now, verificationCode, csrWrite, mail);
    if !ValidEmailAddress(email) {
      assert r.reply == IneligibleEmail(email);
    } else if csrWrite.Fail? {
      ValidEmailAddressNeedsAt(None);
      assert r.reply == UncaughtException();
    } else {
      ValidEmailAddressNeedsAt(None);
      match mail
      case Fail(reason) => assert r.reply == InsertFailure(reason);
      case Pass =>
        var doc := PendingRecord(csr, now, verificationCode);
        AddRecord(docs, newId, doc);
        assert r.docs == docs[newId := doc];
        assert r.reply == Reply(STATUS_CODE_OK, View(newId, doc, None));
    }
  }

  /** What a verify request leaves behind: the collection and the reply. */
  datatype VerifyOutcome = VerifyOutcome(docs: map<Id, Record>, reply: Reply)

  /** The verify handler, one request at a time: parse the id, touch the record, compare the
      code, sign, then set the record VERIFIED with the certificate. The status the record
      had is never looked at. */
  function VerifySpec(docs: map<Id, Record>, resourceId: string, parsedId: Result<Id>,
                      submittedCode: Option<string>, now: Timestamp, signedCert: Result<string>): VerifyOutcome
  {
    if parsedId.Err? then VerifyOutcome(docs, MalformedId(resourceId, parsedId.reason))
    else if parsedId.value !in docs then VerifyOutcome(docs, UnknownResource(resourceId))
    else
      var id := parsedId.value;
      var touched := Apply(SetAccessedAt(now), docs[id]);
      if Some(docs[id].verificationCode) != submittedCode then
        VerifyOutcome(docs[id := touched], IncorrectCode(submittedCode))
      else
        match signedCert
        case Err(reason) => VerifyOutcome(docs[id := touched], VerifyFailure(resourceId, reason))
        case Ok(cert) =>
          VerifyOutcome(docs[id := Apply(SetVerified(now, cert), touched)],
                        Reply(STATUS_CODE_OK, Resource(id, touched.createdAt, now, now, touched.csr,
                                                       Verified.Name(), Verified.Message(), Some(cert))))
  }

  /** A verify keeps every record well formed. */
  lemma VerifyKeepsWellFormed(docs: map<Id, Record>, resourceId: string, parsedId: Result<Id>,
                              submittedCode: Option<string>, now: Timestamp, signedCert: Result<string>)
    requires AllWellFormed(docs)
    ensures AllWellFormed(VerifySpec(docs, resourceId, parsedId, submittedCode, now, signedCert).docs)
  {
    if parsedId.Ok? && parsedId.value in docs {
      var id := parsedId.value;
      var touched := Apply(SetAccessedAt(now), docs[id]);
      StoreKeepsWellFormed(docs, id, touched);
      if signedCert.Ok? {
        StoreKeepsWellFormed(docs, id, VerifiedRecord(docs[id], now, signedCert.value));
      }
    }
  }

  /** A verify keeps the set of ids and the fields no handler changes, leaves every other
      record alone and answers with a well-formed reply. */
  lemma VerifyKeepsOtherRecords(docs: map<Id, Record>, resourceId: string, parsedId: Result<Id>,
                                submittedCode: Option<string>, now: Timestamp, signedCert: Result<string>)
    ensures var r := VerifySpec(docs, resourceId, parsedId, submittedCode, now, signedCert);
      && Preserved(docs, r.docs) && r.docs.Keys == docs.Keys && WellFormedReply(r.reply)
      && forall id | id in docs && (parsedId.Err? || id != parsedId.value) :: r.docs[id] == docs[id]
  {
    var r := VerifySpec(docs, resourceId, parsedId, submittedCode, now, signedCert);
    if parsedId.Err? {
      assert r == VerifyOutcome(docs, MalformedId(resourceId, parsedId.reason));
    } else if parsedId.value !in docs {
      assert r == VerifyOutcome(docs, UnknownResource(resourceId));
    } else {
      var id := parsedId.value;
      var touched := Apply(SetAccessedAt(now), docs[id]);
      if Some(docs[id].verificationCode) != submittedCode {
        assert r == VerifyOutcome(docs[id := touched], IncorrectCode(submittedCode));
        ReplaceKeepsPreserved(docs, id, touched);
        AddRecord(docs, id, touched);
      } else if signedCert.Err? {
        assert r == VerifyOutcome(docs[id := touched], VerifyFailure(resourceId, signedCert.reason));
        ReplaceKeepsPreserved(docs, id, touched);
        AddRecord(docs, id, touched);
      } else {
        var v := VerifiedRecord(docs[id], now, signedCert.value);
        assert r.docs == docs[id := v] && r.reply.statusCode == STATUS_CODE_OK && r.reply.body.Resource?;
        ReplaceKeepsPreserved(docs, id, v);
        AddRecord(docs, id, v);
      }
    }
  }

  /** A malformed id is answered 400 and an unknown one 404, and neither changes anything. */
  lemma VerifyRejectsUnknownId(docs: map<Id, Record>, resourceId: string, parsedId: Result<Id>,
                               submittedCode: Option<string>, now: Timestamp, signedCert: Result<string>)
    ensures var r := VerifySpec(docs, resourceId, parsedId, submittedCode, now, signedCert);
      && (parsedId.Err? ==>
            r.reply == MalformedId(resourceId, parsedId.reason) && r.reply.statusCode == STATUS_CODE_BAD_REQUEST
            && r.docs == docs)
      && (parsedId.Ok? && parsedId.value !in docs ==>
            r.reply == UnknownResource(resourceId) && r.reply.statusCode == STATUS_CODE_NOT_FOUND
            && r.docs == docs)
  {
  }

  /** A known record whose verification does not complete (wrong or missing code: 400;
      certificate not readable: 500) has only its access time set to now. */
  lemma VerifyFailureOnlyTouches(docs: map<Id, Record>, resourceId: string, id: Id,
                                 submittedCode: Option<string>, now: Timestamp, signedCert: Result<string>)
    requires id in docs
    requires Some(docs[id].verificationCode) != submittedCode || signedCert.Err?
    ensures var r := VerifySpec(docs, resourceId, Ok(id), submittedCode, now, signedCert);
      && r.reply == (if Some(docs[id].verificationCode) != submittedCode then IncorrectCode(submittedCode)
                     else VerifyFailure(resourceId, signedCert.reason))
      && r.reply.statusCode != STATUS_CODE_OK
      && r.docs.Keys == docs.Keys
      && r.docs[id].accessedAt == now
      && r.docs[id].status == docs[id].status && r.docs[id].statusMessage == docs[id].statusMessage
      && r.docs[id].cert == docs[id].cert && r.docs[id].modifiedAt == docs[id].modifiedAt
      && r.docs[id].createdAt == docs[id].createdAt && r.docs[id].csr == docs[id].csr
      && r.docs[id].verificationCode == docs[id].verificationCode
  {
  }

  /** The answer is 200 exactly when the id is known, the code matches and the certificate
      was read, whatever the record's status. The record becomes VERIFIED with that
      certificate, modified and accessed now, and the reply shows it, certificate included. */
  lemma VerifyGrants(docs: map<Id, Record>, resourceId: string, parsedId: Result<Id>,
                     submittedCode: Option<string>, now: Timestamp, signedCert: Result<string>)
    ensures var r := VerifySpec(docs, resourceId, parsedId, submittedCode, now, signedCert);
      && (r.reply.statusCode == STATUS_CODE_OK <==>
            && parsedId.Ok? && parsedId.value in docs
            && Some(docs[parsedId.value].verificationCode) == submittedCode && signedCert.Ok?)
      && (r.reply.statusCode == STATUS_CODE_OK ==>
            var v := VerifiedRecord(docs[parsedId.value], now, signedCert.value);
            && r.docs == docs[parsedId.value := v]
            && r.reply.body == View(parsedId.value, v, Some(signedCert.value)))
  {
  }

  /** Because the status is never checked, verifying an already verified record with the right
      code signs again: the second answer is 200 with the new certificate, which replaces the
      one the record held. */
  lemma ReverifyReplacesCertificate(docs: map<Id, Record>, id: Id, code: string,
                                    first: Timestamp, second: Timestamp, cert1: string, cert2: string)
    requires id in docs && docs[id].verificationCode == code
    ensures var r1 := VerifySpec(docs, id, Ok(id), Some(code), first, Ok(cert1));
      var r2 := VerifySpec(r1.docs, id, Ok(id), Some(code), second, Ok(cert2));
      && r1.reply.statusCode == STATUS_CODE_OK && r1.docs[id].status == Verified
      && r2.reply.statusCode == STATUS_CODE_OK && r2.reply.body.Resource?
      && r2.reply.body.cert == Some(cert2)
      && r2.docs[id].status == Verified && r2.docs[id].cert == cert2 && r2.docs[id].modifiedAt == second
  {
    var r1 := VerifySpec(docs, id, Ok(id), Some(code), first, Ok(cert1));
    VerifyGrants(docs, id, Ok(id), Some(code), first, Ok(cert1));
    VerifyGrants(r1.docs, id, Ok(id), Some(code), second, Ok(cert2));
  }

  /** The MongoDB collection, one document per request, keyed by `_id`. */
  class Collection {
    var docs: map<Id, Record>

    constructor()
      ensures docs == map[]
    {
      docs := map[];
    }

    /** `insertOne(doc)` with the fresh `_id` the driver generated. */
    method InsertOne(id: Id, doc: Record)
      requires id !in docs
      modifies this
      ensures docs == old(docs)[id := doc]
    {
      docs := docs[id := doc];
    }

    /** `findOneAndUpdate({ _id: id }, { $set: ... })`: applies the update to the record with
        that id, if any, and returns the record as it was before (the driver's default). */
    method FindOneAndUpdate(id: Id, u: Update) returns (original: Option<Record>)
      modifies this
      ensures original == if id in old(docs) then Some(old(docs)[id]) else None
      ensures docs == if id in old(docs) then old(docs)[id := Apply(u, old(docs)[id])] else old(docs)
    {
      if id in docs {
        original := Some(docs[id]);
        docs := docs[id := Apply(u, docs[id])];
      } else {
        original := None;
      }
    }
  }

  /** The server: its collection, the CSR files it has written to disk and the messages it has
      handed to the mailer. */
  class Server {
    const collection: Collection
    var csrFiles: map<string, string>
    var outbox: seq<Mail>

    ghost predicate Valid()
      reads this, collection
    {
      AllWellFormed(collection.docs)
    }

    constructor()
      ensures Valid() && fresh(collection)
      ensures collection.docs == map[] && csrFiles == map[] && outbox == []
    {
      collection := new Collection();
      csrFiles := map[];
      outbox := [];
    }

    /** `POST /certificateSigningRequests` with body `{ csr }`.
        `subjectLine` is what `openssl req -noout -subject` prints for `csr`; `newId` is the
        `_id` the driver gives the new document; `now` and `verificationCode` are this
        request's `new Date()` and `uuid()`; `csrWrite` is how `fs.writeFileSync` ended and
        `mail` how `sendMail` settled. */
    method Insert(csr: string, subjectLine: string, newId: Id, now: Timestamp,
                  verificationCode: string, csrWrite: Outcome, mail: Outcome) returns (reply: Reply)
      requires Valid()
      requires newId !in collection.docs
      modifies this, collection
      ensures Valid()
      ensures InsertOutcome(collection.docs, csrFiles, outbox, reply)
           == InsertSpec(old(collection.docs), old(csrFiles), old(outbox), csr, subjectLine, newId, now,
                         verificationCode, csrWrite, mail)
    {
      InsertKeepsStoreInvariant(collection.docs, csrFiles, outbox, csr, subjectLine, newId, now,
                                verificationCode, csrWrite, mail);
      ghost var spec := InsertSpec(collection.docs, csrFiles, outbox, csr, subjectLine, newId, now,
                                   verificationCode, csrWrite, mail);
      var email := SubjectEmail(subjectLine);
      if !ValidEmailAddress(email) {
        reply := IneligibleEmail(email);
        assert spec == InsertOutcome(collection.docs, csrFiles, outbox, reply);
        return;
      }
      ValidEmailAddressNeedsAt(None);
      if csrWrite.Fail? {
        reply := UncaughtException();
        assert spec == InsertOutcome(collection.docs, csrFiles, outbox, reply);
        return;
      }
      csrFiles := csrFiles[CsrPath(email.value) := csr];
      outbox := outbox + [Mail(email.value, verificationCode)];
      match mail
      case Fail(reason) =>
        reply := InsertFailure(reason);
        assert spec == InsertOutcome(collection.docs, csrFiles, outbox, reply);
      case Pass =>
        var doc := PendingRecord(csr, now, verificationCode);
        collection.InsertOne(newId, doc);
        reply := Reply(STATUS_CODE_OK, View(newId, doc, None));
        assert spec == InsertOutcome(collection.docs, csrFiles, outbox, reply);
    }

    /** `POST /certificateSigningRequests/:resourceId/verify` with body `{ verificationCode }`.
        `parsedId` is the outcome of `mongo.ObjectId(resourceId)`; `submittedCode` is the
        body's code (`None` when absent); `now` is this request's `new Date()`;
        `signedCert` is the outcome of reading the certificate file after openssl signed. */
    method Verify(resourceId: string, parsedId: Result<Id>, submittedCode: Option<string>,
                  now: Timestamp, signedCert: Result<string>) returns (reply: Reply)
      requires Valid()
      modifies collection
      ensures Valid()
      ensures VerifyOutcome(collection.docs, reply)
           == VerifySpec(old(collection.docs), resourceId, parsedId, submittedCode, now, signedCert)
    {
      VerifyKeepsWellFormed(collection.docs, resourceId, parsedId, submittedCode, now, signedCert);
      if parsedId.Err? {
        reply := MalformedId(resourceId, parsedId.reason);
        return;
      }
      var id := parsedId.value;
      ghost var before := collection.docs;
      var found := collection.FindOneAndUpdate(id, SetAccessedAt(now));
      if found.None? {
        reply := UnknownResource(resourceId);
        return;
      }
      ghost var touched := Apply(SetAccessedAt(now), before[id]);
      assert collection.docs == before[id := touched];
      if Some(found.value.verificationCode) != submittedCode {
        reply := IncorrectCode(submittedCode);
        return;
      }
      match signedCert
      case Err(reason) =>
        reply := VerifyFailure(resourceId, reason);
      case Ok(cert) =>
        var original := collection.FindOneAndUpdate(id, SetVerified(now, cert));
        match original
        case None =>
          // Handling one request at a time, the record found above is still there.
          assert false;
        case Some(r) =>
          assert r == touched;
          assert collection.docs == before[id := Apply(SetVerified(now, cert), touched)];
          reply := Reply(STATUS_CODE_OK,
                         Resource(id, r.createdAt, now, now, r.csr, Verified.Name(), Verified.Message(),
                                  Some(cert)));
    }
  }
}
