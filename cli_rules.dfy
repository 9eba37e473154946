/** The command-line client's pure rules: the prompt's email validator, the `-subj`
    argument it gives `openssl req`, the request paths and the acceptance of a response. */
module CliRules {
  import opened Wrappers
  import opened JsStrings
  import opened Json
  import Eligibility

  /** `EMAIL_DOMAIN_WHITELIST` of the client, a copy of the server's. */
  const EMAIL_DOMAIN_WHITELIST: seq<string> := ["durfee.io"]

  /** The `validate` function of the email prompt; `None` is `undefined`. */
  predicate Validate(emailAddress: Option<string>) {
    var eap := Split(emailAddress.GetOr(""), '@');
    |eap| == 2 && eap[1] in EMAIL_DOMAIN_WHITELIST
  }

  /** The client accepts an address exactly when the server will. */
  lemma ValidateAgreesWithServer(emailAddress: Option<string>)
    ensures Validate(emailAddress) <==> Eligibility.ValidEmailAddress(emailAddress)
  {
  }

  /** The client's rule, stated without `split`: one `@`, an allow-listed domain after it;
      an address without `@` (the empty one and a missing one included) is refused. */
  lemma ValidateMeaning(local: string, domain: string, noAt: Option<string>)
    requires '@' !in noAt.GetOr("")
    ensures Validate(Some(local + "@" + domain))
        <==> '@' !in local && '@' !in domain && domain in EMAIL_DOMAIN_WHITELIST
    ensures !Validate(noAt)
  {
    Eligibility.ValidEmailAddressAt(local, domain);
    ValidateAgreesWithServer(Some(local + "@" + domain));
    Eligibility.ValidEmailAddressNeedsAt(noAt);
  }

  /** The answers to the prompts. */
  datatype Answers = Answers(
    countryName: string,
    stateName: string,
    localityName: string,
    organizationName: string,
    emailAddress: string)

  /** The `-subj` argument of `openssl req`. */
  function SubjectArgument(a: Answers): string {
    "/C=" + a.countryName + "/ST=" + a.stateName + "/L=" + a.localityName
      + "/O=" + a.organizationName + "/CN=" + a.emailAddress + "/emailAddress=" + a.emailAddress
  }

  /** The relative distinguished names the `-subj` argument lists, in order. */
  function SubjectFields(a: Answers): seq<string> {
    ["C=" + a.countryName, "ST=" + a.stateName, "L=" + a.localityName,
     "O=" + a.organizationName, "CN=" + a.emailAddress, "emailAddress=" + a.emailAddress]
  }

  predicate NoSlash(a: Answers) {
    && '/' !in a.countryName && '/' !in a.stateName && '/' !in a.localityName
    && '/' !in a.organizationName && '/' !in a.emailAddress
  }

  /** The validator does not refuse a `/`: an accepted address may hold one in its local
      part, and then the `-subj` argument no longer reads back field by field. */
  lemma ValidateAllowsSlash(local: string, domain: string, a: Answers)
    requires '/' in local && '@' !in local && domain in EMAIL_DOMAIN_WHITELIST
    requires a.emailAddress == local + "@" + domain
    ensures Validate(Some(a.emailAddress)) && !NoSlash(a)
  {
    assert '@' !in domain;
    ValidateMeaning(local, domain, None);
    assert '/' in a.emailAddress by {
      assert a.emailAddress == local + ("@" + domain);
    }
  }

  /** Read back on `/`, the argument is country, state, locality, organization, then the
      entered address as both common name and email address, and nothing else, as long as
      no answer holds a `/`. */
  lemma SubjectArgumentFields(a: Answers)
    requires NoSlash(a)
    ensures Split(SubjectArgument(a), '/') == [""] + SubjectFields(a)
  {
    var fs := SubjectFields(a);
    assert '/' !in "C=" && '/' !in "ST=" && '/' !in "L=" && '/' !in "O=" && '/' !in "CN="
      && '/' !in "emailAddress=";
    assert forall i | 0 <= i < |fs| :: '/' !in fs[i];
    SubjectArgumentSlashed(a);
    SlashedSplit(fs);
  }

  /** The template is the fields, each after a `/`. */
  lemma SubjectArgumentSlashed(a: Answers)
    ensures SubjectArgument(a) == Slashed(SubjectFields(a))
  {
    assert "/C=" == "/" + "C=" && "/ST=" == "/" + "ST=" && "/L=" == "/" + "L=";
    assert "/O=" == "/" + "O=" && "/CN=" == "/" + "CN=";
    assert "/emailAddress=" == "/" + "emailAddress=";
    TaggedSlashed("C=", a.countryName, "ST=", a.stateName, "L=", a.localityName,
                  "O=", a.organizationName, "CN=", a.emailAddress, "emailAddress=", a.emailAddress);
  }

  /** Six tagged values, each tag after a `/`, are the six fields `tag + value`, each after a `/`. */
  lemma TaggedSlashed(t0: string, v0: string, t1: string, v1: string, t2: string, v2: string,
                      t3: string, v3: string, t4: string, v4: string, t5: string, v5: string)
    ensures ("/" + t0) + v0 + ("/" + t1) + v1 + ("/" + t2) + v2
          + ("/" + t3) + v3 + ("/" + t4) + v4 + ("/" + t5) + v5
         == Slashed([t0 + v0, t1 + v1, t2 + v2, t3 + v3, t4 + v4, t5 + v5])
  {
    var fs := [t0 + v0, t1 + v1, t2 + v2, t3 + v3, t4 + v4, t5 + v5];
    SlashedTagged(fs, 0, [], t0, v0);
    var p1 := [] + ("/" + t0) + v0;
    assert p1 == ("/" + t0) + v0;
    SlashedTagged(fs, 1, p1, t1, v1);
    var p2 := p1 + ("/" + t1) + v1;
    SlashedTagged(fs, 2, p2, t2, v2);
    var p3 := p2 + ("/" + t2) + v2;
    SlashedTagged(fs, 3, p3, t3, v3);
    var p4 := p3 + ("/" + t3) + v3;
    SlashedTagged(fs, 4, p4, t4, v4);
    var p5 := p4 + ("/" + t4) + v4;
    SlashedTagged(fs, 5, p5, t5, v5);
    assert fs[..6] == fs;
  }

  /** If the first `k` fields make `text`, the first `k + 1` make `text` followed by `/`,
      the tag and the value of field `k`. */
  lemma SlashedTagged(fs: seq<string>, k: nat, text: string, tag: string, value: string)
    requires k < |fs| && fs[k] == tag + value
    requires k == 0 ==> text == []
    requires k > 0 ==> text == Slashed(fs[..k])
    ensures Slashed(fs[..k + 1]) == text + ("/" + tag) + value
  {
    assert fs[..k + 1][..k] == fs[..k];
    if k == 0 {
      assert fs[..k] == [];
    }
    assert text + ['/'] + (tag + value) == text + ("/" + tag) + value;
  }

  /** `"/" + fields[0] + "/" + fields[1] + ...`, built left to right. */
  function Slashed(fields: seq<string>): string
    decreases |fields|
  {
    if fields == [] then [] else Slashed(fields[..|fields| - 1]) + ['/'] + fields[|fields| - 1]
  }

  lemma {:induction false} SlashedSplit(fields: seq<string>)
    requires forall i | 0 <= i < |fields| :: '/' !in fields[i]
    ensures Split(Slashed(fields), '/') == [""] + fields
    decreases |fields|
  {
    if fields == [] {
      assert Split([], '/') == [""];
    } else {
      var init, last := fields[..|fields| - 1], fields[|fields| - 1];
      SlashedSplit(init);
      SplitBeforeSeparator(Slashed(init), '/', last);
      SeqSnoc([""], init, last, fields);
    }
  }

  lemma SeqSnoc(head: seq<string>, init: seq<string>, last: string, all: seq<string>)
    requires all != [] && init == all[..|all| - 1] && last == all[|all| - 1]
    ensures head + init + [last] == head + all
  {
    assert init + [last] == all;
  }

  /** The collection the client posts to. */
  const COLLECTION: string := "certificateSigningRequests"

  /** The path of the submit request. */
  const SUBMIT_PATH: string := "/" + COLLECTION

  /** The path of the verify request, made from the `id` of the accepted submit response. */
  function VerifyPath(id: Option<Json>): string {
    SUBMIT_PATH + "/" + TemplateText(id) + "/verify"
  }

  /** A string `id` without `/` lands as the one path segment between the collection and
      `verify`. */
  lemma VerifyPathSegments(id: string)
    requires '/' !in id
    ensures Split(VerifyPath(Some(JString(id))), '/') == ["", COLLECTION, id, "verify"]
  {
    CollectionIsOneSegment();
    assert VerifyPath(Some(JString(id))) == "/" + COLLECTION + "/" + id + "/" + "verify";
    SlashedThreeSplit(COLLECTION, id, "verify");
  }

  /** Node's `http.request` throws `ERR_UNESCAPED_CHARACTERS`, before sending anything, for a
      path holding a character outside U+0021..U+00FF: a space, a control character, or any
      character above U+00FF. */
  predicate RequestablePath(p: string) {
    forall c | c in p :: '!' <= c <= '\U{FF}'
  }

  /** The fixed parts of the verify path are requestable, so the path is exactly when the
      printed `id` is. */
  lemma VerifyPathRequestable(id: Option<Json>)
    ensures RequestablePath(VerifyPath(id)) <==> RequestablePath(TemplateText(id))
  {
    FixedPathsRequestable();
    var t := TemplateText(id);
    assert VerifyPath(id) == (SUBMIT_PATH + "/") + (t + "/verify");
    RequestableConcat(SUBMIT_PATH, "/");
    RequestableConcat(t, "/verify");
    RequestableConcat(SUBMIT_PATH + "/", t + "/verify");
  }

  lemma RequestableConcat(a: string, b: string)
    ensures RequestablePath(a + b) <==> RequestablePath(a) && RequestablePath(b)
  {
    assert forall c | c in a :: c in a + b;
    assert forall c | c in b :: c in a + b;
  }

  lemma FixedPathsRequestable()
    ensures RequestablePath(SUBMIT_PATH) && RequestablePath("/") && RequestablePath("/verify")
  {
    assert SUBMIT_PATH == "/" + COLLECTION;
  }

  /** An `id` that is an object prints as `[object Object]`, whose space Node refuses. */
  lemma ObjectIdRefused(fields: map<string, Json>)
    ensures !RequestablePath(VerifyPath(Some(JObject(fields))))
  {
    VerifyPathRequestable(Some(JObject(fields)));
    var t := TemplateText(Some(JObject(fields)));
    assert t == "[object Object]";
    assert t[7] == ' ';
    assert ' ' in t;
  }

  /** An `id` that is a number prints as digits after an optional `-`, which Node accepts. */
  lemma NumberIdRequestable(n: int)
    ensures RequestablePath(VerifyPath(Some(JNumber(n))))
  {
    VerifyPathRequestable(Some(JNumber(n)));
    assert TemplateText(Some(JNumber(n))) == IntText(n);
    if n < 0 {
      DigitsRequestable(-n);
      assert RequestablePath("-");
    } else {
      DigitsRequestable(n);
    }
  }

  lemma DigitsRequestable(n: nat)
    ensures RequestablePath(NatText(n))
  {
    var digits := NatText(n);
    forall c | c in digits ensures '!' <= c <= '\U{FF}' {
      var i :| 0 <= i < |digits| && digits[i] == c;
    }
  }

  lemma CollectionIsOneSegment()
    ensures '/' !in COLLECTION && '/' !in "verify"
  {
  }

  /** Three segments without `/`, each after a `/`, split back into those segments. */
  lemma SlashedThreeSplit(s0: string, s1: string, s2: string)
    requires '/' !in s0 && '/' !in s1 && '/' !in s2
    ensures Split("/" + s0 + "/" + s1 + "/" + s2, '/') == ["", s0, s1, s2]
  {
    var fs := [s0, s1, s2];
    assert Slashed(fs[..1]) == "/" + s0 by { assert fs[..1][..0] == []; }
    assert Slashed(fs[..2]) == Slashed(fs[..1]) + "/" + s1 by { assert fs[..2][..1] == fs[..1]; }
    assert Slashed(fs) == Slashed(fs[..2]) + "/" + s2 by { assert fs[..2] == fs[..|fs| - 1]; }
    SlashedSplit(fs);
  }

  /** The file the client writes the certificate to. */
  function CertFileName(emailAddress: string): string {
    emailAddress + ".cert.pem"
  }

  /** The rule both response handlers apply once the body is complete: only a 200 with a
      non-empty body that parses is used; anything else ends the client with exit code 1. */
  function Accept(statusCode: int, body: string, parse: string -> Option<Json>): Option<Json> {
    if statusCode != 200 then None
    else if body == "" then None
    else parse(body)
  }
}
