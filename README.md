# Durfee certificate authority: request store and client flow

This project models the core of a small certificate authority and proves properties of the model. It has three parts.

- **The server** (`api/main.js`). A client submits a certificate signing request (CSR).
  - The server reads the email address from the CSR's subject and checks it against an allow-list of domains.
  - It writes the CSR to disk and mails a verification code. When the write throws, the handler stops there and Express answers 500 with its error page.
  - Once the mail has been sent, it stores a PENDING record.
  - When the client later posts the code, the server touches the record. If the code matches, the server signs the CSR and stores the record as VERIFIED with the certificate.
- **The client** (`cli/main.js`).
  - It checks the entered address with the same rule the server uses.
  - It builds the `-subj` argument for `openssl req`.
  - It then submits, asks for the code, posts it to the verify path of the id it got back, and writes the returned certificate to `<email>.cert.pem`.
- **The helpers both sides depend on.** These are the JavaScript string operations the code uses (`split`, `trim`, `toLowerCase`, `slice`), parsed JSON values, and how a template literal prints them.

Modules:

- `Wrappers`: `Option`, `Result` and `Outcome`.
- `JsStrings`: ECMAScript `split` on one character, `trim`, `toLowerCase` and `slice`.
- `Json`: values of `JSON.parse`, property access, and `${v}`.
- `Subject`: `extractCSRSubject`.
- `Eligibility`: `validEmailAddress`.
- `RequestStore`:
  - the record, reply and error-message datatypes;
  - the handlers as specification functions `InsertSpec` and `VerifySpec`, with lemmas about them;
  - the MongoDB collection as class `Collection`, whose `docs` map is changed by `InsertOne` and `FindOneAndUpdate`;
  - class `Server`. Its `Insert` and `Verify` methods run the handlers' steps against the collection and are proved equal to the specification functions.
- `CliRules`: `validate`, the `-subj` template, the verify path, and which responses are accepted.
- `CliFlow`:
  - the client as a state machine, with pure steps and runs over event sequences;
  - class `Client`, whose event-handler methods update its fields and are proved equal to those steps.

The outside world is given as inputs:

- openssl's output line for a CSR;
- whether `fs.writeFileSync` of the CSR threw;
- how `sendMail` settled;
- the `_id` the driver generates;
- `new Date()` and `uuid()`;
- the outcome of `mongo.ObjectId`;
- the certificate read after signing;
- `JSON.parse`, as a function parameter;
- HTTP responses, as status codes and body chunks;
- the code the user enters.

Requests to the server are handled one at a time.

The model follows the code where it differs from the intended lifecycle (PENDING, then VERIFIED or FAILED, with one signing per request):

- No handler ever sets FAILED.
- A failed signing is not detected: `sign`'s result is ignored (api/main.js:246). Once openssl runs, only reading the certificate can fail. A failed read answers 500; the record keeps its status, and only `accessedAt` changes. When a certificate from an earlier signing for the same address is still on disk, the read succeeds and the answer is 200 with that certificate.
- Verify never looks at the status. A second verify with the right code signs again, answers 200 with the new certificate and replaces the stored one (`RequestStore.ReverifyReplacesCertificate`).

## Model

| member | source | states |
|---|---|---|
| JsStrings.Split | api/main.js:57-58 | `s.split(c)` has one piece more than `s` has separators, no piece contains the separator, and joining the pieces with it gives `s` back |
| JsStrings.SplitJoin | api/main.js:57-58 | splitting the join of separator-free pieces gives exactly those pieces |
| JsStrings.SplitBeforeSeparator | api/main.js:57-58 | appending a separator and a separator-free piece to a string appends that piece to its split |
| JsStrings.TrimStart | api/main.js:58 | the result is a suffix of the input, everything dropped is whitespace, and it does not start with whitespace |
| JsStrings.TrimEnd | api/main.js:60 | the result is a prefix of the input, everything dropped is whitespace, and it does not end with whitespace |
| JsStrings.Trim | api/main.js:58-60 | `trim()` is no longer than its input and neither starts nor ends with whitespace |
| JsStrings.TrimKeeps | api/main.js:58-60 | trimming never introduces a character |
| JsStrings.TrimPadded | api/main.js:58-60 | trimming a text with no whitespace at its ends, padded with whitespace on both sides, gives that text |
| JsStrings.TrimIdempotent | api/main.js:58-60 | trimming twice is trimming once |
| JsStrings.ToLower | api/main.js:60 | `toLowerCase()` keeps the length, maps each character, and leaves no ASCII capital |
| JsStrings.SliceFrom | api/main.js:57 | `slice(n)` is what follows the first n characters, or empty when there are fewer |
| Json.TemplateText | cli/main.js:98 | how `${v}` prints a parsed value; `VerifyPathSegments`, `ObjectIdRefused` and `NumberIdRequestable` state what that means for the verify path |
| Subject.AttributeSegment | api/main.js:57-60 | a segment `NAME = VALUE` with surrounding whitespace yields key `NAME` lower-cased and value `VALUE` |
| Subject.SegmentKeyBeforeEquals | api/main.js:58-60 | the key of a segment `n=w` whose `n` holds no `=` is `n` trimmed and lower-cased, whatever `w` is |
| Subject.SegmentKeyWithoutEquals | api/main.js:58-60 | the key of a segment without `=` is the whole segment trimmed and lower-cased (its value is empty, by `SegmentValue`'s contract) |
| Subject.SegmentValueAfterEquals | api/main.js:58-60 | the value of a segment `n=v` with one `=` is `v` trimmed |
| Subject.SegmentValueBeforeSecondEquals | api/main.js:58-60 | the value of a segment `n=v=rest` is `v` trimmed: the text after a second `=` is dropped |
| Subject.EntriesOfSubjectLine | api/main.js:57-60 | on a line `subject=` followed by comma-separated attributes `NAME = VALUE` (whitespace around, no `,` or `=` inside), the entries are the attributes' lower-cased names with their values, in order |
| Subject.SubjectEmailOfSubjectLine | api/main.js:56-62 | on such a line, `subject['emailaddress']` is the value of the first attribute whose lower-cased name is `emailaddress`, and `undefined` when there is none |
| Subject.FirstOccurrence | api/main.js:59-61 | reference lookup: absent exactly when no entry has the key, otherwise the value of the first entry with that key |
| Subject.ExtractCSRSubjectFirstWins | api/main.js:56-62 | looking a key up in `extractCSRSubject`'s result gives the value of its first occurrence among the segments, or nothing |
| Subject.ExtractCSRSubjectKeys | api/main.js:56-62 | every key of the result is the key of some segment |
| Subject.Collect | api/main.js:59-61 | the spread `reduce`; its meaning is stated by `CollectLookup` and `ExtractCSRSubjectFirstWins`: a key keeps the value of its first entry |
| Subject.ExtractCSRSubject | api/main.js:56-62 | `extractCSRSubject` from openssl's output; `ExtractCSRSubjectFirstWins`, `ExtractCSRSubjectKeys` and `SubjectEmailOfSubjectLine` state what it returns |
| Eligibility.ValidEmailAddress | api/main.js:64-71 | `validEmailAddress`; `ValidEmailAddressAt`, `ValidEmailAddressNeedsAt` and `ValidEmailAddressOneAt` state which addresses it accepts without `split` |
| Eligibility.ValidEmailAddressAt | api/main.js:64-71 | `local@domain` is eligible exactly when neither part has another `@` and the domain is on the allow-list, matched exactly; an empty local part is accepted |
| Eligibility.ValidEmailAddressNeedsAt | api/main.js:64-71 | an address without `@`, including the empty and the missing one, is never eligible |
| Eligibility.ValidEmailAddressOneAt | api/main.js:64-71 | an address with two or more `@` is never eligible |
| RequestStore.PendingRecord | api/main.js:132-141 | the inserted document is PENDING and satisfies the record invariant |
| RequestStore.VerifiedRecord | api/main.js:239-256 | after both `$set`s the record is VERIFIED with the given certificate, modified and accessed now, and keeps its creation time, CSR and code |
| RequestStore.InsertSpec | api/main.js:103-197 | the insert handler on one request; its meaning is stated by the `Insert…` lemmas below |
| RequestStore.InsertKeepsStoreInvariant | api/main.js:103-197 | an insert keeps every record well formed, changes no existing record, hands at most one message to the mailer and answers with a well-formed reply |
| RequestStore.InsertRejectsIneligible | api/main.js:103-122 | the answer is 400 exactly when the subject address is ineligible, and then no record, no file and no mail result |
| RequestStore.InsertWriteFailureStops | api/main.js:123 | when writing the CSR file throws, nothing is mailed, no record or file is added, and the answer is Express's 500 error page |
| RequestStore.InsertMailFailureInsertsNothing | api/main.js:123-196 | once the CSR file is written under the address, the code is mailed to that address; if the mail fails, the answer is 500 with the mailer's reason and no record is added |
| RequestStore.InsertCreatesPendingRecord | api/main.js:123-161 | the answer is 200 exactly when the address is eligible, the CSR file was written and the mail was sent; then exactly one record is added with these fields: PENDING, no certificate, all three times now, the CSR and the mailed code. The reply describes it without the code or the certificate |
| RequestStore.VerifySpec | api/main.js:214-350 | the verify handler on one request; its meaning is stated by the `Verify…` lemmas below |
| RequestStore.VerifyKeepsWellFormed | api/main.js:236-296 | a verify keeps every record well formed; in particular no record ever becomes FAILED |
| RequestStore.VerifyKeepsOtherRecords | api/main.js:236-350 | a verify keeps the set of ids, never changes creation time, CSR or code, leaves all other records untouched, and answers with a well-formed reply |
| RequestStore.VerifyRejectsUnknownId | api/main.js:214-243 | a malformed id answers 400 and an unknown id 404, and neither changes the collection |
| RequestStore.VerifyFailureOnlyTouches | api/main.js:236-247 | a wrong or missing code (400), or an unreadable certificate (500), only sets the record's `accessedAt` to now |
| RequestStore.VerifyGrants | api/main.js:244-277 | the answer is 200 exactly when the id is known, the code matches and the certificate was read, whatever the status; the record becomes VERIFIED with that certificate and the reply shows it |
| RequestStore.ReverifyReplacesCertificate | api/main.js:243-268 | a second verify with the right code answers 200 again and replaces the stored certificate with the new one |
| RequestStore.Collection.InsertOne | api/main.js:132-141 | `insertOne` adds the document under its fresh id |
| RequestStore.Collection.FindOneAndUpdate | api/main.js:236-242 | `findOneAndUpdate` applies the `$set` to the record with that id, if any, and returns the record as it was before |
| RequestStore.Server.Insert | api/main.js:91-198 | the insert handler's steps leave the collection, the CSR files, the mailer's messages and the reply as `InsertSpec` says, and keep the store invariant |
| RequestStore.Server.Verify | api/main.js:201-351 | the verify handler's steps, with both `findOneAndUpdate` calls, leave the collection and the reply as `VerifySpec` says, and keep the store invariant |
| CliRules.Validate | cli/main.js:44-47 | the prompt's `validate`; `ValidateAgreesWithServer` and `ValidateMeaning` state what it accepts |
| CliRules.ValidateAgreesWithServer | cli/main.js:44-47 | the client's `validate` accepts exactly the addresses the server's `validEmailAddress` accepts |
| CliRules.ValidateMeaning | cli/main.js:44-47 | `validate` accepts `local@domain` exactly when neither part has another `@` and the domain is allow-listed; an input without `@`, including the empty and undefined ones, is refused |
| CliRules.ValidateAllowsSlash | cli/main.js:44-50 | `validate` accepts an address with `/` in its local part, so the answers can break the slash-free condition `SubjectArgumentFields` needs |
| CliRules.SubjectArgument | cli/main.js:50 | the `-subj` template; `SubjectArgumentFields` states how it reads back |
| CliRules.SubjectArgumentFields | cli/main.js:50 | read back on `/`, the `-subj` argument is C, ST, L, O, then CN and emailAddress both set to the entered address, in that order and nothing else |
| CliRules.VerifyPathSegments | cli/main.js:98 | for a string id without `/`, the verify path has segments `certificateSigningRequests`, the id, `verify` |
| CliRules.VerifyPath | cli/main.js:98 | the verify path template; `VerifyPathSegments` states its segments |
| CliRules.VerifyPathRequestable | cli/main.js:94-98 | the verify path is one Node's `http.request` accepts exactly when the printed id has only characters U+0021..U+00FF |
| CliRules.ObjectIdRefused | cli/main.js:98 | an object id prints as `[object Object]`, whose space makes Node refuse the verify path |
| CliRules.NumberIdRequestable | cli/main.js:98 | a numeric id, negative or not, always gives a verify path Node accepts |
| CliFlow.ExitCode | cli/main.js:73-74 | a phase has an exit status exactly when the process has ended |
| CliFlow.SubmitEndStep | cli/main.js:70-82 | the `end` handler of the submit response; `SubmitAcceptance` states when it prompts |
| CliFlow.SubmitAcceptance | cli/main.js:70-82 | the client prompts for the code exactly after a 200 with a non-empty body that parses to a non-null value, then keeps that value and its `id`; every other outcome ends with exit code 1 |
| CliFlow.CodeStep | cli/main.js:90-137 | the settled code prompt; `VerifyRequestTarget` states the request it sends, or the exit when Node refuses the path |
| CliFlow.VerifyRequestTarget | cli/main.js:90-137 | the code is posted to `/certificateSigningRequests/${id}/verify` for the id received exactly when Node accepts that path; otherwise the `.catch` exits with code 1 and nothing is sent; the files never change |
| CliFlow.VerifyEndStep | cli/main.js:109-126 | the `end` handler of the verify response; `CertWrittenOnlyOnAcceptance` states when it writes the file |
| CliFlow.CertWrittenOnlyOnAcceptance | cli/main.js:109-125 | `<email>.cert.pem` is written, holding the response's `cert`, exactly after a 200 with a non-empty body that parses to an object whose `cert` is a string; otherwise no file is written and the exit code is 1 |
| CliFlow.Step | cli/main.js:65-147 | one event of the client; `StepKeepsInv` and `TerminalIsFinal` state what it keeps |
| CliFlow.StepKeepsInv | cli/main.js:65-147 | every event keeps the client invariant |
| CliFlow.RunKeepsInv | cli/main.js:65-147 | in every run, the submit request is sent first; the only other request is the verify request, sent after an accepted submit response, to the verify path of that response's `id`, which Node accepts, carrying a code; the only file ever written is the certificate file, and only at the successful end |
| CliFlow.TerminalIsFinal | cli/main.js:73-74 | after `process.exit`, an uncaught exception or the final write, no event changes anything |
| CliFlow.ReceiveChunks | cli/main.js:66-69 | the body a handler sees is the concatenation of the chunks received |
| CliFlow.HappyPath | cli/main.js:55-127 | with two good responses and a string id of characters Node accepts in a path, the client posts the CSR, then the code to `/certificateSigningRequests/<id>/verify`, keeps the parsed submit response, and ends with exit code 0 and exactly one file, the certificate |
| CliFlow.Client.constructor | cli/main.js:51-64 | the client starts by posting `{ csr }` to `/certificateSigningRequests` |
| CliFlow.Client.OnData | cli/main.js:67-69 | a `data` event appends the chunk to the body |
| CliFlow.Client.OnSubmitEnd | cli/main.js:70-82 | the `end` handler of the submit response does `SubmitEndStep` and keeps the invariant |
| CliFlow.Client.OnCodeEntered | cli/main.js:90-137 | the settled code prompt sends the verify request, or exits with code 1 when Node refuses the path, as `CodeStep` says |
| CliFlow.Client.OnVerifyEnd | cli/main.js:109-126 | the `end` handler of the verify response does `VerifyEndStep` and keeps the invariant |
| CliFlow.Client.OnError | cli/main.js:128-131 | a request `error` or a prompt rejection ends the client with exit code 1 |

## Left out

- openssl is not run. Subject extraction starts from the `subject=` line openssl prints; signing is reduced to the certificate file read afterwards (`Ok`) or the error reading it (`Err`). Key generation in the client is outside the model, and the `openssl` arguments other than `-subj` are not modelled.
- The certificate path the verify handler reads comes from the stored CSR's subject. In the model it is part of the input, so a certificate left on disk by an earlier signing of the same address is not visible as such.
- The mailer is reduced to an `Outcome` whose failure carries the error message. A message handed to it is recorded as its recipient and verification code; the sender, the subject and the surrounding text are not modelled.
- Writing the CSR file is reduced to an `Outcome`: why it throws (a missing directory, which an address with `/` in its local part leads to, or a NUL byte) is not modelled. Express's error page is the body `ErrorPage`, without its text. The file mode `0o444` is not modelled.
- MongoDB is reduced to a map. Connection failures, rejected operations, the `insertedCount != 1` branch (api/main.js:162-179), duplicate keys and `_id` generation are not modelled.
- RequestStore.Server.Insert: requires a fresh `newId`, because the driver generates a new ObjectId for each insert.
- `mongo.ObjectId` parsing is an input `Result`; its `Err` carries the library's message.
- Concurrent requests are left out: requests are handled one at a time. With that, the 404 branch after the second `findOneAndUpdate` (api/main.js:278-295) cannot be reached, and the race between the two `findOneAndUpdate` calls is outside the model.
- The submitted code is a string or absent. JavaScript's loose `==` against other JSON values is not modelled; for example, `["<code>"] == "<code>"` holds.
- The request body's `csr` is taken to be a string.
- Express routing, JSON serialization of responses (including dates printed as ISO strings) and all `console.dir` / `console.error` logging are left out.
- Replies are modelled as data:
  - an error body's message is an `ErrorMessage` value, and its `Text()` gives the exact text;
  - a record's `statusMessage` is one of the three status-message constants, held as a `StatusMessage` value with the constant's text in `Text()`.
- Strings are sequences of Unicode scalar values, not UTF-16 code units, so `slice(8)` and lengths differ from JavaScript for characters outside the Basic Multilingual Plane.
- JsStrings.ToLower: maps only the ASCII letters. `toLowerCase` maps every Unicode letter.
- JSON numbers are integers only, and their text is given for magnitudes below 10^21. Fractions and exponent notation are not modelled.
- `JSON.parse` is a function parameter and its grammar is not modelled.
- The client's prompts (inquirer, the default answers, the prompt rejecting before the CSR is made), the HTTPS layer (host, port, CA file, `Content-Length`; of Node's own checks on a request only the path's character range is modelled) and the UTF-8 decoding of body chunks are left out. Responses arrive as a status code and string chunks.
- The client's certificate write is modelled as it behaves in Node versions that reject non-string data: a `cert` that is not a string crashes the client. The file mode `0o444` is not modelled, and neither is a failed write into an existing read-only file.
- A client event that the program has no handler for in the current phase leaves the state unchanged in `CliFlow.Step`.
