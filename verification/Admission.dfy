/** The admission decision: from the review request to the one response. */
module Admission {
  import opened Kinds
  import opened Results
  import opened Validators

  // ---- The plugin ----

  const POLICY_GROUPS := {"admissionregistration.k8s.io", "admissionregistration.x-k8s.io"}

  const POLICY_RESOURCES := {"validatingadmissionpolicies", "validatingadmissionpolicybindings"}

  predicate IsPolicyResource(r: Resource) {
    r.group in POLICY_GROUPS && r.resource in POLICY_RESOURCES
  }

  const NOT_READY := "not yet ready to handle request"

  /** The name for an error message: that of the request, or of its object, or of
      what its object's name will start with. */
  function NameOf(a: Attributes): string {
    if |a.name| > 0 then a.name
    else
      match a.object'
      case None => "Unknown"
      case Some(Object(_, NoMetadata, _)) => "Unknown/errorGettingName"
      case Some(Object(_, Names(name, generateName), _)) =>
        if |name| > 0 then name else if |generateName| > 0 then generateName else "Unknown"
  }

  function Qualified(r: Resource): string {
    if r.group == "" then r.resource else r.resource + "." + r.group
  }

  /** admission.NewForbidden with the plugin's error. */
  function Forbidden(a: Attributes): Failure {
    var message :=
      if a.resource.group == "" && a.resource.resource == "" then "forbidden: " + NOT_READY
      else Qualified(a.resource) + " \"" + NameOf(a) + "\" is forbidden: " + NOT_READY;
    Failure(message, Some(Status(403, "Forbidden", message)))
  }

  /** The text of the error, case by case. */
  lemma ForbiddenSays(a: Attributes)
    ensures var f, r, notReady := Forbidden(a), a.resource, "not yet ready to handle request";
      && f.status == Some(Status(403, "Forbidden", f.message))
      && (r.group == "" && r.resource == "" ==> f.message == "forbidden: " + notReady)
      && (r.group == "" && r.resource != "" && a.name != "" ==>
            f.message == r.resource + " \"" + a.name + "\" is forbidden: " + notReady)
      && (r.group != "" && a.name != "" ==>
            f.message == r.resource + "." + r.group + " \"" + a.name + "\" is forbidden: " + notReady)
  {}

  /** A request without a name goes by the name of its object, if that has one. */
  lemma NamedByObject(a: Attributes)
    requires a.name == ""
    ensures a.object'.None? ==> NameOf(a) == "Unknown"
    ensures a.object'.Some? && a.object'.value.metadata.NoMetadata? ==> NameOf(a) == "Unknown/errorGettingName"
    ensures a.object'.Some? && a.object'.value.metadata.Names? ==>
      var n := a.object'.value.metadata;
      && (n.name != "" ==> NameOf(a) == n.name)
      && (n.name == "" && n.generateName != "" ==> NameOf(a) == n.generateName)
      && (n.name == "" && n.generateName == "" ==> NameOf(a) == "Unknown")
  {}

  /** What the plugin answers if its polls of `HasSynced` see `polls`. */
  function PluginRejection(polls: seq<bool>, evaluator: Attributes -> Option<Failure>, a: Attributes): Option<Failure> {
    if IsPolicyResource(a.resource) then None
    else if true in polls then evaluator(a)
    else Some(Forbidden(a))
  }

  /** The plugin handles every operation. */
  function PluginValidator(polls: seq<bool>, evaluator: Attributes -> Option<Failure>): Validator {
    Single(_ => true, a => PluginRejection(polls, evaluator, a))
  }

  /** Polling stops at the first poll that says yes. */
  function PollsNeeded(polls: seq<bool>): nat {
    if polls == [] then 0 else if polls[0] then 1 else 1 + PollsNeeded(polls[1..])
  }

  /** The polls up to the first that says yes, or all of them. */
  lemma {:induction false} PollsNeededExactly(polls: seq<bool>)
    ensures var n := PollsNeeded(polls);
      n <= |polls| && if true in polls then n > 0 && polls[n - 1] && true !in polls[..n - 1] else n == |polls|
  {
    if polls != [] && !polls[0] {
      PollsNeededExactly(polls[1..]);
      assert polls == [polls[0]] + polls[1..];
      var n := PollsNeeded(polls);
      if true in polls {
        assert polls[..n - 1] == [false] + polls[1..][..n - 2];
      }
    }
  }

  class Plugin {
    const evaluator: Attributes -> Option<Failure>

    // The requests that the evaluator was asked about, and how often HasSynced was
    // asked.
    var evaluated: seq<Attributes>
    var polled: nat

    constructor (evaluator: Attributes -> Option<Failure>)
      ensures this.evaluator == evaluator && evaluated == [] && polled == 0
    {
      this.evaluator := evaluator;
      evaluated, polled := [], 0;
    }

    /** `polls` is what HasSynced says, at once and then every 100ms for a second. No
        poll follows one that says yes, and the evaluator is asked only after it. */
    method Validate(a: Attributes, polls: seq<bool>) returns (error: Option<Failure>)
      requires polls != []
      modifies this
      ensures error == PluginRejection(polls, evaluator, a)
      ensures evaluated == old(evaluated) + if IsPolicyResource(a.resource) || true !in polls then [] else [a]
      ensures polled == old(polled) + if IsPolicyResource(a.resource) then 0 else PollsNeeded(polls)
      ensures a.resource.group in {"admissionregistration.k8s.io", "admissionregistration.x-k8s.io"}
        && a.resource.resource in {"validatingadmissionpolicies", "validatingadmissionpolicybindings"}
        ==> error.None? && evaluated == old(evaluated) && polled == old(polled)
      ensures !(a.resource.group in {"admissionregistration.k8s.io", "admissionregistration.x-k8s.io"}
          && a.resource.resource in {"validatingadmissionpolicies", "validatingadmissionpolicybindings"})
          && true in polls
        ==> error == evaluator(a) && evaluated == old(evaluated) + [a]
    {
      if IsPolicyResource(a.resource) {
        return None;
      }
      var synced := false;
      var i := 0;
      while i < |polls| && !synced
        invariant 0 <= i <= |polls| && polled == old(polled) + i
        invariant synced ==> true in polls && i == PollsNeeded(polls)
        invariant !synced ==> true !in polls[..i] && PollsNeeded(polls) == i + PollsNeeded(polls[i..])
        invariant evaluated == old(evaluated)
        decreases |polls| - i
      {
        assert polls[i..][1..] == polls[i + 1..];
        synced := polls[i];
        i := i + 1;
        polled := polled + 1;
      }
      if !synced {
        assert polls[..i] == polls;
        return Some(Forbidden(a));
      }
      evaluated := evaluated + [a];
      error := evaluator(a);
    }
  }

  // ---- Requests ----

  /** An AdmissionRequest; objects are still text. */
  datatype Request = Request(
    uid: string, kind: Kind, resource: Resource, subresource: string, name: string, namespace: string,
    operation: string, user: User, object': string, oldObject: string)

  /** A body, and what reading it as an AdmissionReview gives. */
  datatype Body = Empty | Malformed(message: string) | Review(request: Option<Request>)

  datatype HttpRequest = HttpRequest(contentType: string, body: Body)

  const JSON_TYPE := "application/json"

  function ParseRequest(req: HttpRequest): Result<Request> {
    if req.contentType != JSON_TYPE then
      Error("Content-Type: \"" + req.contentType + "\" should be \"" + JSON_TYPE + "\"")
    else
      match req.body
      case Empty => Error("admission request body is empty")
      case Malformed(m) => Error("could not parse admission review request: " + m)
      case Review(None) => Error("admission review can't be used: Request field is nil")
      case Review(Some(r)) => Ok(r)
  }

  // ---- Objects ----

  datatype Outcome = Decoded(object': Object) | NotRegistered | Undecodable(message: string)

  /** What the decoder of the scheme says about a text: the kind it names, if it could
      be read, and the object. */
  datatype Decoding = Decoding(kind: Option<Kind>, outcome: Outcome)

  /** `unstructured` reads a text as an object of any kind. */
  datatype Decoder = Decoder(decode: string -> Decoding, unstructured: string -> Result<Object>)

  /** Objects have the kind that the decoder read in their text. */
  ghost predicate Truthful(d: Decoder) {
    && (forall raw :: d.decode(raw).outcome.Decoded? ==> d.decode(raw).kind == Some(d.decode(raw).outcome.object'.kind))
    && (forall raw :: d.decode(raw).outcome.NotRegistered? && d.unstructured(raw).Ok? ==>
          d.decode(raw).kind == Some(d.unstructured(raw).value.kind))
  }

  /** An object as the validators get it, or the answer that refuses the request. */
  datatype Reading = Readable(object': Option<Object>) | Refused(status: int, message: string)

  function ReadObject(d: Decoder, raw: string, kind: Kind): Reading {
    if raw == "" then Readable(None)
    else if d.decode(raw).kind != Some(kind) then Refused(400, "unexpected GVK")
    else
      match d.decode(raw).outcome
      case NotRegistered => (
        match d.unstructured(raw)
        case Ok(x) => Readable(Some(x))
        case Error(m) => Refused(500, m))
      case Undecodable(m) => Refused(400, m)
      case Decoded(x) => Readable(Some(x))
  }

  /** Lists that hold something stay; empty ones become nil. */
  function ConvertedList(values: Strings): Strings {
    if values.Some? && |values.value| > 0 then values else None
  }

  function ConvertedExtra(input: Option<map<string, Strings>>): Option<map<string, Strings>> {
    match input
    case None => None
    case Some(lists) => Some(map k | k in lists :: ConvertedList(lists[k]))
  }

  function AttributesOf(r: Request, object': Option<Object>, oldObject: Option<Object>): Attributes {
    Attributes(object', oldObject, r.kind, r.namespace, r.name, r.resource, r.subresource, r.operation,
               r.user.(extra := ConvertedExtra(r.user.extra)))
  }

  // ---- Responses ----

  datatype AdmissionResponse = AdmissionResponse(uid: string, allowed: bool, code: int, message: string, reason: string)

  datatype Reply = HttpError(status: int, message: string) | Reviewed(response: AdmissionResponse)

  function ReviewOf(uid: string, error: Option<Failure>): AdmissionResponse {
    match error
    case None => AdmissionResponse(uid, true, 202, "valid", "")
    case Some(Failure(m, None)) => AdmissionResponse(uid, false, 403, m, "")
    case Some(Failure(_, Some(s))) => AdmissionResponse(uid, false, s.code, s.message, s.reason)
  }

  method ReviewResponse(uid: string, error: Option<Failure>) returns (r: AdmissionResponse)
    ensures r == ReviewOf(uid, error)
    ensures r.uid == uid && (r.allowed <==> error.None?)
    ensures error.None? ==> r.code == 202 && r.message == "valid" && r.reason == ""
    ensures error.Some? && error.value.status.None? ==>
              r.code == 403 && r.message == error.value.message && r.reason == ""
    ensures error.Some? && error.value.status.Some? ==> Status(r.code, r.reason, r.message) == error.value.status.value
  {
    var allowed := error.None?;
    var status := 202;
    if error.Some? {
      status := 403;
    }
    var reason, message := "", "valid";
    if error.Some? {
      message := error.value.message;
    }
    if error.Some? && error.value.status.Some? {
      var statusError := error.value.status.value;
      reason := statusError.reason;
      message := statusError.message;
      status := statusError.code;
    }
    r := AdmissionResponse(uid, allowed, status, message, reason);
  }

  // ---- The handler ----

  /** The verdict on a request that could be parsed, or the answer that refuses it. */
  datatype Finding = Found(error: Option<Failure>) | Unreadable(status: int, message: string)

  function Judge(v: Validator, d: Decoder, r: Request): Finding {
    if !Handling(v, r.operation) then Found(None)
    else
      match (ReadObject(d, r.oldObject, r.kind), ReadObject(d, r.object', r.kind))
      case (Refused(status, m), _) => Unreadable(status, m)
      case (_, Refused(status, m)) => Unreadable(status, m)
      case (Readable(old'), Readable(new')) => Found(Rejection(v, AttributesOf(r, new', old')))
  }

  /** `marshalError` is an error in writing out the review. */
  function Answer(v: Validator, d: Decoder, req: HttpRequest, marshalError: Option<string>): Reply {
    match ParseRequest(req)
    case Error(m) => HttpError(400, m)
    case Ok(r) =>
      match Judge(v, d, r)
      case Unreadable(status, m) => HttpError(status, m)
      case Found(error) =>
        if marshalError.Some? then HttpError(500, marshalError.value) else Reviewed(ReviewOf(r.uid, error))
  }

  class ResponseWriter {
    var sent: seq<Reply>

    constructor ()
      ensures sent == []
    {
      sent := [];
    }

    method Send(reply: Reply)
      modifies this
      ensures sent == old(sent) + [reply]
    {
      sent := sent + [reply];
    }
  }

  lemma ConvertedExactly(input: Option<map<string, Strings>>)
    ensures var res := ConvertedExtra(input);
      && (res.None? <==> input.None?)
      && (input.Some? ==> res.value.Keys == input.value.Keys)
      && (input.Some? ==> forall k :: k in input.value ==>
            (res.value[k].None? <==> input.value[k].None? || input.value[k].value == [])
            && (res.value[k].Some? ==> res.value[k] == input.value[k]))
  {}

  lemma BuiltInFull(built: map<string, Strings>, lists: map<string, Strings>)
    requires built.Keys == lists.Keys && forall k :: k in built ==> built[k] == ConvertedList(lists[k])
    ensures Some(built) == ConvertedExtra(Some(lists))
  {
    assert built == ConvertedExtra(Some(lists)).value;
  }

  /** The inner loop: one list, string by string. */
  method ConvertList(list: Strings) returns (converted: Strings)
    ensures converted == ConvertedList(list)
    ensures converted.None? <==> list.None? || list.value == []
    ensures converted.Some? ==> converted == list
  {
    var values := if list.None? then [] else list.value;
    converted := None;
    for i := 0 to |values|
      invariant if i == 0 then converted.None? else converted.Some? && converted.value == values[..i]
    {
      converted := Some((if converted.None? then [] else converted.value) + [values[i]]);
    }
    assert values[..|values|] == values;
  }

  /** The extra attributes of a user, list by list. */
  method ConvertExtra(input: Option<map<string, Strings>>) returns (res: Option<map<string, Strings>>)
    ensures res == ConvertedExtra(input)
    ensures res.None? <==> input.None?
    ensures input.Some? ==> res.value.Keys == input.value.Keys
    ensures input.Some? ==> forall k :: k in input.value ==>
      (res.value[k].None? <==> input.value[k].None? || input.value[k].value == [])
      && (res.value[k].Some? ==> res.value[k] == input.value[k])
  {
    if input.None? {
      return None;
    }
    var lists := input.value;
    var built := map[];
    var keys := lists.Keys;
    while keys != {}
      invariant keys <= lists.Keys && built.Keys == lists.Keys - keys
      invariant forall k :: k in built ==> built[k] == ConvertedList(lists[k])
      decreases |keys|
    {
      var k :| k in keys;
      keys := keys - {k};
      var converted := ConvertList(lists[k]);
      built := built[k := converted];
    }
    BuiltInFull(built, lists);
    ConvertedExactly(input);
    return Some(built);
  }

  class Webhook {
    const validator: Validator
    const decoder: Decoder

    constructor (validator: Validator, decoder: Decoder)
      ensures this.validator == validator && this.decoder == decoder
    {
      this.validator := validator;
      this.decoder := decoder;
    }

    method DecodeObject(raw: string, kind: Kind) returns (r: Reading)
      requires raw != ""
      ensures r == ReadObject(decoder, raw, kind)
    {
      var decoding := decoder.decode(raw);
      if decoding.kind.None? || decoding.kind.value != kind {
        return Refused(400, "unexpected GVK");
      }
      match decoding.outcome
      case NotRegistered =>
        var unstructured := decoder.unstructured(raw);
        if unstructured.Error? {
          return Refused(500, unstructured.message);
        }
        return Readable(Some(unstructured.value));
      case Undecodable(m) => return Refused(400, m);
      case Decoded(x) => return Readable(Some(x));
    }

    /** Every way through the handler sends exactly one response. */
    method HandleValidate(w: ResponseWriter, req: HttpRequest, marshalError: Option<string>)
      modifies w
      ensures w.sent == old(w.sent) + [Answer(validator, decoder, req, marshalError)]
    {
      var parsed := ParseRequest(req);
      if parsed.Error? {
        w.Send(HttpError(400, parsed.message));
        return;
      }
      var r := parsed.value;
      var error: Option<Failure> := None;
      var handling := validator.Handles(r.operation);
      if handling {
        var object', oldObject := None, None;
        if |r.oldObject| > 0 {
          var reading := DecodeObject(r.oldObject, r.kind);
          if reading.Refused? {
            w.Send(HttpError(reading.status, reading.message));
            return;
          }
          oldObject := reading.object';
        }
        if |r.object'| > 0 {
          var reading := DecodeObject(r.object', r.kind);
          if reading.Refused? {
            w.Send(HttpError(reading.status, reading.message));
            return;
          }
          object' := reading.object';
        }
        var extra := ConvertExtra(r.user.extra);
        error := validator.Validate(Attributes(
          object', oldObject, r.kind, r.namespace, r.name, r.resource, r.subresource, r.operation,
          User(r.user.name, r.user.uid, r.user.groups, extra)));
      }
      var response := ReviewResponse(r.uid, error);
      if marshalError.Some? {
        w.Send(HttpError(500, marshalError.value));
        return;
      }
      w.Send(Reviewed(response));
    }
  }

  // ---- The decision ----

  predicate Allows(reply: Reply) {
    reply.Reviewed? && reply.response.allowed
  }

  /** What the validators are to decide about, if both objects can be read. */
  function Asked(d: Decoder, r: Request): Option<Attributes> {
    match (ReadObject(d, r.object', r.kind), ReadObject(d, r.oldObject, r.kind))
    case (Readable(new'), Readable(old')) => Some(AttributesOf(r, new', old'))
    case _ => None
  }

  lemma LeavesHandle(v: Validator, operation: string)
    ensures AnyHandling(Leaves(v), operation) == Handling(v, operation)
  {
    LeavesOfOne(v, Attributes(None, None, Kind("", "", ""), "", "", Resource("", "", ""), "", operation,
                              User("", "", [], None)), operation);
  }

  lemma LeavesReject(v: Validator, a: Attributes)
    ensures FirstRejection(Leaves(v), a).Some? <==> Rejects(v, a)
  {
    LeavesOfOne(v, a, a.operation);
  }

  lemma HandledByLeaves(v: Validator, operation: string)
    ensures Handling(v, operation) <==> exists i :: 0 <= i < |Leaves(v)| && Leaves(v)[i].handles(operation)
  {
    LeavesHandle(v, operation);
    HandlingExactly(Leaves(v), operation);
    forall i | 0 <= i < |Leaves(v)| ensures Handling(Leaves(v)[i], operation) == Leaves(v)[i].handles(operation) {}
  }

  lemma AcceptedByLeaves(v: Validator, a: Attributes)
    ensures !Rejects(v, a) <==>
      forall i :: 0 <= i < |Leaves(v)| && Leaves(v)[i].handles(a.operation) ==> Leaves(v)[i].validate(a).None?
  {
    LeavesReject(v, a);
    DecidesExactly(Leaves(v), a);
    forall i | 0 <= i < |Leaves(v)|
      ensures Rejects(Leaves(v)[i], a) <==> Leaves(v)[i].handles(a.operation) && Leaves(v)[i].validate(a).Some?
    {}
  }

  /** A JSON body that holds a review with a request in it. */
  predicate WellPosed(req: HttpRequest) {
    req.contentType == "application/json" && req.body.Review? && req.body.request.Some?
  }

  /** The text names this kind, and is an object of the scheme or at least of some
      kind. */
  predicate ReadableAs(d: Decoder, raw: string, kind: Kind) {
    && d.decode(raw).kind == Some(kind)
    && (d.decode(raw).outcome.Decoded? || (d.decode(raw).outcome.NotRegistered? && d.unstructured(raw).Ok?))
  }

  /** The text names the right kind, one outside the scheme, but is no object. */
  predicate IsUnreadable(d: Decoder, raw: string, kind: Kind) {
    raw != "" && d.decode(raw).kind == Some(kind) && d.decode(raw).outcome.NotRegistered? && d.unstructured(raw).Error?
  }

  /** The object that the decoder makes of a text, of the scheme's type or unstructured. */
  ghost predicate IsDecodedFrom(x: Option<Object>, d: Decoder, raw: string) {
    if raw == "" then x == None
    else if d.decode(raw).outcome.Decoded? then x == Some(d.decode(raw).outcome.object')
    else d.unstructured(raw).Ok? && x == Some(d.unstructured(raw).value)
  }

  /** There is something to ask the validators about exactly if each text is empty or
      readable. Then they get the objects that the decoder makes of the texts, the new
      as new and the old as old, and what the request says of everything else. */
  lemma AskedExactly(d: Decoder, r: Request)
    ensures Asked(d, r).Some? <==>
      (r.object' == "" || ReadableAs(d, r.object', r.kind)) && (r.oldObject == "" || ReadableAs(d, r.oldObject, r.kind))
    ensures Asked(d, r).Some? ==>
      var a := Asked(d, r).value;
      && IsDecodedFrom(a.object', d, r.object') && IsDecodedFrom(a.oldObject, d, r.oldObject)
      && a.resource == r.resource && a.operation == r.operation && a.kind == r.kind
      && a.name == r.name && a.namespace == r.namespace && a.subresource == r.subresource
      && SameUser(a.user, r.user)
  {}

  /** The user, with an empty list of extra attributes as nil. */
  predicate SameUser(u: User, given: User) {
    && u.name == given.name && u.uid == given.uid && u.groups == given.groups
    && (u.extra.None? <==> given.extra.None?)
    && (given.extra.Some? ==> u.extra.value.Keys == given.extra.value.Keys)
    && (given.extra.Some? ==> forall k :: k in given.extra.value ==>
          if given.extra.value[k].None? || given.extra.value[k].value == [] then u.extra.value[k].None?
          else u.extra.value[k] == given.extra.value[k])
  }

  /** A request is allowed exactly if it is well posed, its review can be written, and
      for every single validator that handles its operation, both objects can be read
      as objects of the request's kind and the validator accepts them. */
  lemma AllowedExactly(v: Validator, d: Decoder, req: HttpRequest, marshalError: Option<string>)
    ensures Allows(Answer(v, d, req, marshalError)) <==>
      && WellPosed(req) && marshalError.None?
      && var r := req.body.request.value;
      && (forall i :: 0 <= i < |Leaves(v)| && Leaves(v)[i].handles(r.operation) ==>
            Asked(d, r).Some? && Leaves(v)[i].validate(Asked(d, r).value).None?)
  {
    if WellPosed(req) {
      var r := req.body.request.value;
      HandledByLeaves(v, r.operation);
      if Asked(d, r).Some? {
        AcceptedByLeaves(v, Asked(d, r).value);
      }
    }
  }

  /** A reply that is not an HTTP error is the review of this request. The others are
      400 or 500, and 500 exactly if the old object is of a kind outside the scheme and
      unreadable; or the old one is fine and the new one is so; or both are fine, or
      not looked at, and the review cannot be written. */
  lemma AnsweredExactly(v: Validator, d: Decoder, req: HttpRequest, marshalError: Option<string>)
    ensures var reply := Answer(v, d, req, marshalError);
      && (!WellPosed(req) ==> reply.HttpError? && reply.status == 400)
      && (WellPosed(req) ==>
            var r := req.body.request.value;
            && (reply.Reviewed? <==> marshalError.None? && (Handling(v, r.operation) ==> Asked(d, r).Some?))
            && (reply.Reviewed? ==> reply.response.uid == r.uid)
            && (reply.HttpError? ==> reply.status in {400, 500})
            && (reply.HttpError? && reply.status == 500 <==>
                  (if Handling(v, r.operation) && !(r.oldObject == "" || ReadableAs(d, r.oldObject, r.kind))
                   then IsUnreadable(d, r.oldObject, r.kind)
                   else if Handling(v, r.operation) && !(r.object' == "" || ReadableAs(d, r.object', r.kind))
                   then IsUnreadable(d, r.object', r.kind)
                   else marshalError.Some?)))
  {}

  /** What is answered to a request without a review, case by case. */
  lemma RefusedAtOnce(v: Validator, d: Decoder, req: HttpRequest, marshalError: Option<string>)
    ensures var reply := Answer(v, d, req, marshalError);
      if req.contentType != "application/json" then
        reply == HttpError(400, "Content-Type: \"" + req.contentType + "\" should be \"application/json\"")
      else if req.body.Empty? then reply == HttpError(400, "admission request body is empty")
      else if req.body.Malformed? then
        reply == HttpError(400, "could not parse admission review request: " + req.body.message)
      else req.body.request.None? ==>
        reply == HttpError(400, "admission review can't be used: Request field is nil")
  {}

  /** The answer that refuses a text that is not readable as the request's kind. */
  ghost predicate IsRefusalOf(reply: Reply, d: Decoder, raw: string, kind: Kind) {
    if d.decode(raw).kind != Some(kind) then reply.HttpError? && reply.status == 400
    else if d.decode(raw).outcome.Undecodable? then reply == HttpError(400, d.decode(raw).outcome.message)
    else d.unstructured(raw).Error? && reply == HttpError(500, d.unstructured(raw).message)
  }

  /** A review that is handled is refused for its old object, if that is unreadable, else
      for its new one, else because the answer cannot be written; each time with the
      error of what failed. */
  lemma RefusedForObjects(v: Validator, d: Decoder, req: HttpRequest, marshalError: Option<string>)
    requires WellPosed(req) && Handling(v, req.body.request.value.operation)
    ensures var r, reply := req.body.request.value, Answer(v, d, req, marshalError);
      if r.oldObject != "" && !ReadableAs(d, r.oldObject, r.kind) then IsRefusalOf(reply, d, r.oldObject, r.kind)
      else if r.object' != "" && !ReadableAs(d, r.object', r.kind) then IsRefusalOf(reply, d, r.object', r.kind)
      else if marshalError.Some? then reply == HttpError(500, marshalError.value)
      else reply.Reviewed?
  {}

  /** A rejected request is answered with the error of the first single validator that
      handles its operation and rejects it: with its status if it has one, else with 403
      and its message. */
  lemma RejectedWith(v: Validator, d: Decoder, req: HttpRequest, i: nat)
    requires WellPosed(req) && Asked(d, req.body.request.value).Some? && i < |Leaves(v)|
    requires var r := req.body.request.value; var a := Asked(d, r).value;
      && Leaves(v)[i].handles(r.operation) && Leaves(v)[i].validate(a).Some?
      && forall j :: 0 <= j < i && Leaves(v)[j].handles(r.operation) ==> Leaves(v)[j].validate(a).None?
    ensures var r := req.body.request.value;
      var f := Leaves(v)[i].validate(Asked(d, r).value).value;
      Answer(v, d, req, None) == Reviewed(
        if f.status.None? then AdmissionResponse(r.uid, false, 403, f.message, "")
        else AdmissionResponse(r.uid, false, f.status.value.code, f.status.value.message, f.status.value.reason))
  {
    var r := req.body.request.value;
    var a := Asked(d, r).value;
    HandledByLeaves(v, r.operation);
    LeavesOfOne(v, a, r.operation);
    DecidesExactly(Leaves(v), a);
    forall j | 0 <= j < |Leaves(v)|
      ensures Rejects(Leaves(v)[j], a) <==> Leaves(v)[j].handles(r.operation) && Leaves(v)[j].validate(a).Some?
    {}
    assert Rejection(Leaves(v)[i], a) == Leaves(v)[i].validate(a);
  }

  // ---- Validators see only objects of the request's kind ----

  predicate OfItsKind(a: Attributes) {
    && (a.object'.Some? ==> a.object'.value.kind == a.kind)
    && (a.oldObject.Some? ==> a.oldObject.value.kind == a.kind)
  }

  lemma AskedOfItsKind(d: Decoder, r: Request)
    requires Truthful(d) && Asked(d, r).Some?
    ensures OfItsKind(Asked(d, r).value) && Asked(d, r).value.operation == r.operation
  {}

  /** Validators that handle the same operations and agree on objects of the request's
      kind get the same answer to every request: nothing else ever reaches them. */
  lemma OnlyMatchingObjectsMatter(
    v: Validator, w: Validator, d: Decoder, req: HttpRequest, marshalError: Option<string>)
    requires Truthful(d)
    requires forall operation :: Handling(v, operation) == Handling(w, operation)
    requires forall a :: OfItsKind(a) ==> Rejection(v, a) == Rejection(w, a)
    ensures Answer(v, d, req, marshalError) == Answer(w, d, req, marshalError)
  {}

  // ---- The webhook with the plugin as its only validator ----

  /** How the process is set up. */
  function Served(polls: seq<bool>, evaluator: Attributes -> Option<Failure>): Validator {
    Multi([PluginValidator(polls, evaluator)])
  }

  lemma ServedRejection(polls: seq<bool>, evaluator: Attributes -> Option<Failure>, a: Attributes)
    ensures Handling(Served(polls, evaluator), a.operation)
    ensures Rejection(Served(polls, evaluator), a) == PluginRejection(polls, evaluator, a)
  {
    var p := PluginValidator(polls, evaluator);
    assert Handling(p, a.operation);
    assert Rejection(p, a) == PluginRejection(polls, evaluator, a);
    assert Served(polls, evaluator) == Multi([p]);
    assert Handling(Multi([p]), a.operation);
    assert [p][1..] == [];
    assert FirstRejection([p], a) == if Rejection(p, a).Some? then Rejection(p, a) else FirstRejection([], a);
  }

  /** End to end, for a request whose objects can be read: one about policies or
      bindings, of either group, is allowed without a poll. Any other, of these groups
      too, gets exactly the evaluator's verdict after a poll that saw the informers
      synced, and without such a poll is forbidden, whatever the evaluator would say. */
  lemma ServedExactly(
    polls: seq<bool>, evaluator: Attributes -> Option<Failure>, d: Decoder, req: HttpRequest)
    requires WellPosed(req) && Asked(d, req.body.request.value).Some?
    ensures var r := req.body.request.value; var a := Asked(d, r).value;
      var reply := Answer(Served(polls, evaluator), d, req, None);
      var exempt :=
        && (r.resource.group == "admissionregistration.k8s.io" || r.resource.group == "admissionregistration.x-k8s.io")
        && (r.resource.resource == "validatingadmissionpolicies"
            || r.resource.resource == "validatingadmissionpolicybindings");
      && (exempt ==> reply == Reviewed(AdmissionResponse(r.uid, true, 202, "valid", "")))
      && (!exempt && true in polls ==> reply == Reviewed(ReviewOf(r.uid, evaluator(a))))
      && (!exempt && true !in polls ==>
            reply == Reviewed(AdmissionResponse(r.uid, false, 403, Forbidden(a).message, "Forbidden")))
      && (Allows(reply) <==> exempt || (true in polls && evaluator(a).None?))
  {
    ServedRejection(polls, evaluator, Asked(d, req.body.request.value).value);
  }
}
