/** The audit-log middleware (backend/src/middleware/auditLog.js): for every JSON
    response it builds one audit record from the request, redacting sensitive
    body fields, and hands the response body on unchanged. The deferred database
    write is abstracted to a flag saying whether it succeeded. */
module AuditLog {
  import opened Common
  import opened Strings

  // ---------------------------------------------------------------------------
  // sanitizeData: shallow redaction of sensitive keys

  /** The field names whose presence in a key marks it as sensitive. */
  const SensitiveFields: seq<string> := ["password", "token", "secret", "apiKey", "creditCard"]

  /** The same names lower-cased, as the comparison uses them. */
  const LowerSensitiveFields: seq<string> := ["password", "token", "secret", "apikey", "creditcard"]

  const Redacted: string := "[REDACTED]"

  /** The lower-cased key contains one of the lower-cased field names. */
  ghost predicate IsSensitiveKey(key: string) {
    exists f :: f in LowerSensitiveFields && Contains(Lower(key), f)
  }

  lemma LowerFields()
    ensures forall i :: 0 <= i < |SensitiveFields| ==> Lower(SensitiveFields[i]) == LowerSensitiveFields[i]
  {
    assert Lower("apiKey") == "apikey";
    assert Lower("creditCard") == "creditcard";
    assert Lower("password") == "password";
    assert Lower("token") == "token";
    assert Lower("secret") == "secret";
  }

  /** `sensitiveFields.some(field => key.toLowerCase().includes(field.toLowerCase()))` */
  function SensitiveKey(key: string): (b: bool)
    ensures b <==> IsSensitiveKey(key)
  {
    LowerFields();
    exists i :: 0 <= i < |SensitiveFields| && Includes(Lower(key), Lower(SensitiveFields[i]))
  }

  /** The sanitised copy of a body: sensitive keys map to "[REDACTED]", every
      other key keeps its value (nested objects are not visited). */
  function Sanitized(m: map<string, Json>): map<string, Json> {
    map k | k in m :: if SensitiveKey(k) then JStr(Redacted) else m[k]
  }

  /** `sanitizeData(data)`: null for a missing body; otherwise a copy in which
      each sensitive key is overwritten, one key at a time. */
  method SanitizeData(data: Option<map<string, Json>>) returns (r: Option<map<string, Json>>)
    ensures data.None? <==> r.None?
    ensures data.Some? ==> r.value.Keys == data.value.Keys && r.value == Sanitized(data.value)
  {
    if data.None? {
      return None;
    }
    var body := data.value;
    var sanitized := body;
    var keys := body.Keys;
    while keys != {}
      invariant keys <= body.Keys && sanitized.Keys == body.Keys
      invariant forall k :: k in sanitized ==> sanitized[k] == if k in keys then body[k] else Sanitized(body)[k]
      decreases |keys|
    {
      var key :| key in keys;
      if SensitiveKey(key) {
        sanitized := sanitized[key := JStr(Redacted)];
      }
      keys := keys - {key};
    }
    assert sanitized == Sanitized(body);
    return Some(sanitized);
  }

  /** Each value of the sanitised copy: "[REDACTED]" for a sensitive key, the
      original value (nested objects included) otherwise. */
  lemma SanitizedAt(m: map<string, Json>, k: string)
    requires k in m
    ensures k in Sanitized(m)
    ensures Sanitized(m)[k] == if IsSensitiveKey(k) then JStr(Redacted) else m[k]
  {
  }

  /** Sanitising twice redacts nothing more. */
  lemma SanitizeIdempotent(m: map<string, Json>)
    ensures Sanitized(Sanitized(m)) == Sanitized(m)
  {
  }

  /** A value reads "[REDACTED]" after sanitising exactly when its key is
      sensitive or it already read so. */
  lemma RedactedIff(m: map<string, Json>, k: string)
    requires k in m
    ensures Sanitized(m)[k] == JStr(Redacted) <==> IsSensitiveKey(k) || m[k] == JStr(Redacted)
  {
  }

  // ---------------------------------------------------------------------------
  // extractEntityType

  function NotHyphen(c: char): bool { c != '-' }

  /** The second non-empty '/'-segment of the path with its first character
      upper-cased and every later '-' removed, or "Unknown". */
  function ExtractEntityType(path: string): (r: string)
    ensures |NonEmptyPieces(path, '/')| < 2 ==> r == "Unknown"
    ensures |NonEmptyPieces(path, '/')| >= 2 ==>
              var entity := NonEmptyPieces(path, '/')[1];
              r == [UpperChar(entity[0])] + Filter(entity[1..], NotHyphen)
              && |r| >= 1 && '-' !in r[1..] && '/' !in r
              && forall c :: c in entity[1..] && c != '-' ==> c in r[1..]
  {
    var parts := NonEmptyPieces(path, '/');
    if |parts| >= 2 then
      var entity := parts[1];
      var tail := Filter(entity[1..], NotHyphen);
      assert '/' !in entity;
      assert UpperChar(entity[0]) != '/';
      [UpperChar(entity[0])] + tail
    else "Unknown"
  }

  /** A segment without hyphens only has its first letter capitalised. */
  lemma EntityTypeWithoutHyphens(path: string)
    requires |NonEmptyPieces(path, '/')| >= 2
    requires '-' !in NonEmptyPieces(path, '/')[1]
    ensures var entity := NonEmptyPieces(path, '/')[1];
            ExtractEntityType(path) == [UpperChar(entity[0])] + entity[1..]
  {
    var entity := NonEmptyPieces(path, '/')[1];
    FilterAll(entity[1..], NotHyphen);
  }

  lemma {:induction false} FilterAll<T>(s: seq<T>, p: T -> bool)
    requires forall i :: 0 <= i < |s| ==> p(s[i])
    ensures Filter(s, p) == s
  {
    if s != [] {
      FilterAll(s[1..], p);
    }
  }

  // ---------------------------------------------------------------------------
  // extractEntityId

  predicate IsIdChar(c: char) {
    ('0' <= c <= '9') || ('a' <= c <= 'f') || ('A' <= c <= 'F') || c == '-'
  }

  /** `/([a-f0-9-]{36})` (case-insensitive) matches with its '/' at index `j`. */
  predicate IdRunAt(path: string, j: nat) {
    j + 37 <= |path| && path[j] == '/' && forall m :: j + 1 <= m < j + 37 ==> IsIdChar(path[m])
  }

  /** The leftmost match at or after `from`, as a regular-expression search scans. */
  function FindIdFrom(path: string, from: nat): (r: Option<nat>)
    ensures r.Some? ==> from <= r.value && IdRunAt(path, r.value)
    ensures r.Some? ==> forall k :: from <= k < r.value ==> !IdRunAt(path, k)
    ensures r.None? ==> forall k :: from <= k ==> !IdRunAt(path, k)
    decreases |path| - from
  {
    if from + 37 > |path| then None
    else if IdRunAt(path, from) then Some(from)
    else FindIdFrom(path, from + 1)
  }

  /** What `extractEntityId` produces: an id, null, or a thrown TypeError
      (reading `body.id` when there is no body). */
  datatype IdLookup = Found(id: Json) | NoId | Thrown

  /** `params.id` is present and non-empty. */
  predicate ParamId(params: map<string, string>) {
    "id" in params && params["id"] != ""
  }

  /** `body.id` is present and truthy. */
  predicate BodyId(body: map<string, Json>) {
    "id" in body && Truthy(body["id"])
  }

  /** A truthy `params.id`, else a truthy `body.id`, else the 36 characters after
      the leftmost matching '/', else null. */
  function ExtractEntityId(path: string, body: Option<map<string, Json>>, params: map<string, string>): (r: IdLookup)
    ensures ParamId(params) ==> r == Found(JStr(params["id"]))
    ensures !ParamId(params) && body.None? ==> r == Thrown
    ensures !ParamId(params) && body.Some? && BodyId(body.value) ==> r == Found(body.value["id"])
    ensures !ParamId(params) && body.Some? && !BodyId(body.value) ==>
              (r == NoId <==> forall j :: !IdRunAt(path, j))
    ensures !ParamId(params) && body.Some? && !BodyId(body.value) && r != NoId ==>
              exists j :: IdRunAt(path, j) && r == Found(JStr(path[j + 1 .. j + 37]))
                          && forall k :: 0 <= k < j ==> !IdRunAt(path, k)
  {
    if ParamId(params) then Found(JStr(params["id"]))
    else if body.None? then Thrown
    else if BodyId(body.value) then Found(body.value["id"])
    else
      match FindIdFrom(path, 0)
      case Some(j) => Found(JStr(path[j + 1 .. j + 37]))
      case None => NoId
  }

  // ---------------------------------------------------------------------------
  // The record built when a JSON response is sent

  /** The parts of an Express request the middleware reads. */
  datatype Request = Request(
    user: Option<Id>,
    verb: string,
    path: string,
    originalUrl: string,
    body: Option<map<string, Json>>,
    params: map<string, string>,
    ip: Option<string>,
    remoteAddress: Option<string>,
    userAgent: Option<string>)

  datatype AuditEntry = AuditEntry(
    userId: Option<Id>,
    action: string,
    entityType: string,
    entityId: Option<Json>,
    ipAddress: Option<string>,
    userAgent: Option<string>,
    requestMethod: string,
    requestUrl: string,
    statusCode: int,
    duration: int,
    oldValues: Option<map<string, Json>>,
    newValues: Option<map<string, Json>>)

  /** The methods whose body is recorded as `newValues`. */
  predicate RecordsBody(verb: string) {
    verb == "POST" || verb == "PUT" || verb == "PATCH"
  }

  /** `req.ip || req.connection.remoteAddress` */
  function IpAddress(req: Request): Option<string> {
    if req.ip.Some? && req.ip.value != "" then req.ip else req.remoteAddress
  }

  /** The record the wrapper would write, or None when building it throws. */
  function BuildEntry(req: Request, startTime: int, now: int, statusCode: int): (r: Option<AuditEntry>)
    ensures r.None? <==> ExtractEntityId(req.path, req.body, req.params) == Thrown
    ensures r.Some? ==> r.value.userId == req.user && r.value.action == req.verb
                        && r.value.requestMethod == req.verb && r.value.requestUrl == req.originalUrl
                        && r.value.statusCode == statusCode
    ensures r.Some? ==> r.value.duration == now - startTime
    ensures r.Some? ==> r.value.entityType == ExtractEntityType(req.path)
                        && r.value.ipAddress == IpAddress(req) && r.value.userAgent == req.userAgent
    ensures r.Some? ==>
              var lookup := ExtractEntityId(req.path, req.body, req.params);
              (lookup.Found? ==> r.value.entityId == Some(lookup.id))
              && (lookup.NoId? ==> r.value.entityId.None?)
    ensures r.Some? ==> r.value.oldValues.None?
    ensures r.Some? && !RecordsBody(req.verb) ==> r.value.newValues.None?
    ensures r.Some? && RecordsBody(req.verb) ==>
              (req.body.None? ==> r.value.newValues.None?)
              && (req.body.Some? ==> r.value.newValues == Some(Sanitized(req.body.value)))
  {
    var lookup := ExtractEntityId(req.path, req.body, req.params);
    if lookup.Thrown? then None
    else
      var entityId := if lookup.Found? then Some(lookup.id) else None;
      var newValues :=
        if RecordsBody(req.verb) && req.body.Some? then Some(Sanitized(req.body.value)) else None;
      Some(AuditEntry(
        req.user, req.verb, ExtractEntityType(req.path),
        entityId,
        IpAddress(req), req.userAgent, req.verb, req.originalUrl,
        statusCode, now - startTime, None, newValues))
  }

  /** What one `res.json(data)` call does: the data sent, and the record that
      reaches the audit table. */
  datatype Emission = Emission(sent: Json, entry: Option<AuditEntry>)

  /** The wrapped `res.json`: the response is always `data`; the record is written
      when it can be built and the store accepts it, and a failure on either is
      swallowed. */
  function OnJson(req: Request, startTime: int, now: int, statusCode: int, data: Json, writeOk: bool): (e: Emission)
    ensures e.sent == data
    ensures e.entry.Some? <==> writeOk && ExtractEntityId(req.path, req.body, req.params) != Thrown
    ensures e.entry.Some? ==> e.entry == BuildEntry(req, startTime, now, statusCode)
  {
    var entry := BuildEntry(req, startTime, now, statusCode);
    Emission(data, if writeOk then entry else None)
  }
}
