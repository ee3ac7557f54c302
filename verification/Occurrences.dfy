/** Values found in requests and responses, and when a value may feed a later request
    (backend/app/services/correlation_engine.py:38-152, backend/app/utils/naming.py). */
module Occurrences {
  import opened Wrappers
  import opened Text
  import opened Naming

  datatype Place = PathSegment | Query | Header | Cookie | Form | JsonBody | XmlBody | TextBody

  datatype Kind = StringKind | NumberKind | BooleanKind | NullKind

  datatype Occurrence = Occurrence(execution: string, index: int, place: Place, path: string, key: Option<string>,
                                   raw: string, normalized: string, kind: Kind, wrapper: Option<string>)

  /** One exchange of a run with the values that the indexer lists for it. `present` says that a
      response was recorded, `usable` that it was not an error. */
  datatype Execution = Execution(id: string, index: int, segments: seq<string>, sinks: seq<Occurrence>,
                                 sources: seq<Occurrence>, present: bool, usable: bool)

  /** Where an occurrence is; a location of one request or response. */
  type Location = (string, Place, string)

  function LocationOf(o: Occurrence): Location {
    (o.execution, o.place, o.path)
  }

  // --- field names ---

  function LowerAll(s: string): (r: string)
    ensures |r| == |s|
  {
    seq(|s|, i requires 0 <= i < |s| => Lower(s[i]))
  }

  function OnlyAlphanumeric(s: string): string {
    if s == "" then ""
    else (if 'a' <= s[0] <= 'z' || IsDigit(s[0]) then [s[0]] else "") + OnlyAlphanumeric(s[1..])
  }

  const ALIASES: map<string, string> := map[
    "merchantguid" := "merchantguid", "merchantsguid" := "merchantguid", "merchantuuid" := "merchantguid",
    "merchantid" := "merchantid", "merchantsid" := "merchantid",
    "webhookid" := "webhookid", "webhookguid" := "webhookguid",
    "accesstoken" := "accesstoken", "bearertoken" := "accesstoken", "authtoken" := "accesstoken"
  ]

  function NormalizedName(name: string): string {
    var n := OnlyAlphanumeric(LowerAll(name));
    if n in ALIASES then ALIASES[n] else n
  }

  predicate Equivalent(a: string, b: string) {
    NormalizedName(a) != "" && NormalizedName(a) == NormalizedName(b)
  }

  predicate IsPathSeparator(c: char) {
    c == '.' || c == '[' || c == ']' || c == '/'
  }

  predicate NotPathSeparator(c: char) {
    !IsPathSeparator(c)
  }

  /** The last non-empty piece other than the root sign. */
  function LastPiece(s: string): Option<string>
    decreases |s|
  {
    if s == "" then None
    else if IsPathSeparator(s[0]) then LastPiece(s[1..])
    else
      var n := Span(s, NotPathSeparator);
      var rest := LastPiece(s[n..]);
      if rest.Some? || s[..n] == "$" then rest else Some(s[..n])
  }

  function SuggestedName(key: Option<string>, path: string): string {
    if key.Some? && key.value != "" then Sanitized(key.value)
    else if path == "" then Sanitized("value")
    else
      var piece := LastPiece(path);
      Sanitized(if piece.Some? then piece.value else path)
  }

  lemma SuggestedIsIdent(key: Option<string>, path: string)
    ensures IsIdent(SuggestedName(key, path))
  {
    SanitizedIsIdent("value");
    if key.Some? {
      SanitizedIsIdent(key.value);
    }
    var piece := LastPiece(path);
    SanitizedIsIdent(if piece.Some? then piece.value else path);
  }

  // --- which values may be correlated ---

  const CONSTANTS: set<string> := {
    "get", "post", "put", "delete", "patch", "head", "options", "true", "false", "null", "none",
    "application/json", "application/xml", "text/html", "text/plain",
    "application/x-www-form-urlencoded", "multipart/form-data",
    "ok", "created", "accepted", "no content", "bad request", "unauthorized",
    "forbidden", "not found", "internal server error", "utf-8", "gzip",
    "keep-alive", "close", "no-cache", "*/*"
  }

  datatype Exclusion = NullOrBoolean | Empty | TooShort | CommonConstant | SmallInteger

  function Excluded(o: Occurrence, minLength: nat): Option<Exclusion> {
    if o.kind.NullKind? || o.kind.BooleanKind? then Some(NullOrBoolean)
    else if o.normalized == "" then Some(Empty)
    else if |o.normalized| < minLength then Some(TooShort)
    else if LowerAll(o.normalized) in CONSTANTS then Some(CommonConstant)
    else if o.kind.NumberKind? && |o.normalized| <= 3 then Some(SmallInteger)
    else None
  }

  /** The exclusions that a path naming the resource overrules. */
  predicate OverrulableOrNone(e: Option<Exclusion>) {
    e.None? || e.value.TooShort? || e.value.SmallInteger?
  }

  predicate HasNonZero(s: string) {
    exists i :: 0 <= i < |s| && s[i] != '0'
  }

  /** The number in a path sink's location `[k]`. */
  function SegmentIndex(path: string): Option<nat> {
    if |path| > 2 && path[0] == '[' && path[|path| - 1] == ']' && IsDecimal(path[1..|path| - 1])
    then Some(ParseNat(path[1..|path| - 1])) else None
  }

  function WithoutS(name: string): string {
    if name != "" && name[|name| - 1] == 's' then name[..|name| - 1] else name
  }

  /** A small number in a path may only be correlated when the segment before it names the resource
      that the number identifies. */
  predicate NamesItsResource(src: Occurrence, sink: Occurrence, segments: seq<string>) {
    var index := SegmentIndex(sink.path);
    && sink.place.PathSegment? && IsDecimal(src.raw) && HasNonZero(src.raw)
    && index.Some? && 0 < index.value < |segments|
    && var resource := NormalizedName(segments[index.value - 1]);
       var name := NormalizedName(SuggestedName(src.key, src.path));
       resource != "" && (name == resource + "id" || name == WithoutS(resource) + "id")
  }

  // --- matching a value against a sink ---

  /** The wrapper a sink puts around a value, when it carries the value at all. */
  function Match(value: string, sink: Occurrence): Option<Option<string>> {
    if sink.raw == value then Some(None)
    else if sink.place.Header? && sink.raw == "Bearer " + value then Some(Some("Bearer "))
    else if sink.place.Header? && sink.raw == "bearer " + value then Some(Some("bearer "))
    else if sink.place.Header? && sink.raw == "Token " + value then Some(Some("Token "))
    else if sink.place.Header? && sink.raw == "token " + value then Some(Some("token "))
    else if sink.place.TextBody? && |value| >= 8 && Occurs(value, sink.raw) then Some(None)
    else None
  }

  /** A match outside a text body is a whole-value match: wrapper and value are the sink's text. */
  lemma MatchIsWhole(value: string, sink: Occurrence)
    requires Match(value, sink).Some? && !sink.place.TextBody?
    ensures
      var w := Match(value, sink).value;
      sink.raw == (if w.Some? then w.value else "") + value
  {
    assert "" + value == value;
  }
}
