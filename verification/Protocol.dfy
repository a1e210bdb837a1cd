/**
 Request paths: `id=<client>/<segment>/...`, with `key=value` segments collected
 into a dictionary, and the continuation paths the server asks clients to request.
 */
module Protocol {
  import opened Wrappers
  import opened Sequences
  import opened Bytes
  import opened Utf8

  datatype Parsed = Parsed(raw: string, clientId: Option<string>, path: string, segments: seq<string>,
    values: map<string, string>)

  datatype PathError = InvalidClientId(value: string)

  // ----- text operations -----

  function LowerChar(c: char): char {
    if 'A' <= c <= 'Z' then ((c as int) + 32) as char else c
  }

  function Lower(s: string): (r: string)
    ensures |r| == |s| && forall i :: 0 <= i < |s| ==> r[i] == LowerChar(s[i])
  {
    seq(|s|, i requires 0 <= i < |s| => LowerChar(s[i]))
  }

  predicate IdChar(c: char) {
    'A' <= c <= 'Z' || 'a' <= c <= 'z' || '0' <= c <= '9' || c == '_' || c == '-'
  }

  predicate AllIdChars(s: string) {
    s != "" && forall i :: 0 <= i < |s| ==> IdChar(s[i])
  }

  /** What `^[A-Za-z0-9_-]+$` accepts: `$` also matches before one final newline. */
  predicate IdMatches(s: string) {
    AllIdChars(s) || (s != "" && s[|s| - 1] == '\n' && AllIdChars(s[..|s| - 1]))
  }

  function NormalizeClientId(value: string): Result<string, PathError> {
    if IdMatches(Lower(value)) then Ok(Lower(value)) else Err(InvalidClientId(value))
  }

  /** A normalized id: what the session store is keyed by. */
  predicate Normalized(c: string) {
    Lower(c) == c && IdMatches(c)
  }

  lemma NormalizeIdempotent(value: string)
    requires NormalizeClientId(value).Ok?
    ensures Normalized(NormalizeClientId(value).value)
    ensures NormalizeClientId(NormalizeClientId(value).value) == NormalizeClientId(value)
  {
    var c := NormalizeClientId(value).value;
    assert Lower(c) == c by {
      assert forall i :: 0 <= i < |c| ==> LowerChar(c[i]) == c[i];
    }
  }

  lemma NormalizedStays(c: string)
    requires Normalized(c)
    ensures NormalizeClientId(c) == Ok(c)
  {
  }

  /** Python's `split("/")`. */
  function SplitSlashes(s: string): seq<string>
    decreases |s|
  {
    var i := IndexOf(s, '/');
    if i == |s| then [s] else [s[..i]] + SplitSlashes(s[i + 1..])
  }

  function LStripSlashes(s: string): (r: string)
    ensures |r| <= |s|
  {
    if s != "" && s[0] == '/' then LStripSlashes(s[1..]) else s
  }

  function RStripSlashes(s: string): (r: string)
    ensures |r| <= |s|
  {
    if s != "" && s[|s| - 1] == '/' then RStripSlashes(s[..|s| - 1]) else s
  }

  /** Python's `strip("/")`. */
  function StripSlashes(s: string): string {
    RStripSlashes(LStripSlashes(s))
  }

  function HexNibble(c: char): Option<nat> {
    if '0' <= c <= '9' then Some(c as int - '0' as int)
    else if 'a' <= c <= 'f' then Some(c as int - 'a' as int + 10)
    else if 'A' <= c <= 'F' then Some(c as int - 'A' as int + 10)
    else None
  }

  /** The byte of an escape `%XX` at the front. */
  function Escape(s: string): Option<byte> {
    if |s| >= 3 && s[0] == '%' && HexNibble(s[1]).Some? && HexNibble(s[2]).Some?
    then Some(16 * HexNibble(s[1]).value + HexNibble(s[2]).value) else None
  }

  /** The bytes of the escapes at the front that are not ASCII. */
  function EscapeRun(s: string): (run: bytes)
    ensures 3 * |run| <= |s|
  {
    if Escape(s).Some? && Escape(s).value >= 0x80 then [Escape(s).value] + EscapeRun(s[3..]) else []
  }

  function Chars(t: Text): (s: string)
    ensures |s| == |t|
  {
    seq(|t|, i requires 0 <= i < |t| => t[i] as char)
  }

  /** What the front of a text stands for: a character, an ASCII escape, or a run of other escapes. */
  function Head(s: string): string
    requires s != ""
  {
    if Escape(s).None? then [s[0]]
    else if Escape(s).value < 0x80 then [Escape(s).value as char]
    else Chars(Decode(EscapeRun(s)))
  }

  function HeadWidth(s: string): (n: nat)
    requires s != ""
    ensures |Head(s)| <= n && 0 < n <= |s|
  {
    if Escape(s).None? then 1 else if Escape(s).value < 0x80 then 3 else 3 * |EscapeRun(s)|
  }

  /** Percent-decoding as UTF-8. */
  function Unquote(s: string): (r: string)
    ensures |r| <= |s|
    decreases |s|
  {
    if s == "" then "" else Head(s) + Unquote(s[HeadWidth(s)..])
  }

  lemma {:induction false} UnquotePlain(s: string)
    requires '%' !in s
    ensures Unquote(s) == s
  {
    if s != "" {
      assert s == [s[0]] + s[1..];
      UnquotePlain(s[1..]);
    }
  }

  /** The non-empty segments, each percent-decoded. */
  function Segments(raw: seq<string>): seq<string> {
    if raw == [] then [] else (if raw[0] == "" then [] else [Unquote(raw[0])]) + Segments(raw[1..])
  }

  function Join(segs: seq<string>): string {
    if segs == [] then "" else "/" + segs[0] + Join(segs[1..])
  }

  // ----- key=value segments -----

  predicate HasKey(segment: string) {
    0 < IndexOf(segment, '=') < |segment|
  }

  function KeyOf(segment: string): string {
    segment[..IndexOf(segment, '=')]
  }

  function ValueOf(segment: string): string
    requires HasKey(segment)
  {
    segment[IndexOf(segment, '=') + 1..]
  }

  /** Later segments win. */
  function Values(segments: seq<string>): map<string, string> {
    if segments == [] then map[] else
      var last := segments[|segments| - 1];
      var before := Values(segments[..|segments| - 1]);
      if HasKey(last) then before[KeyOf(last) := ValueOf(last)] else before
  }

  /** The loop that fills the dictionary. */
  method CollectValues(segments: seq<string>) returns (values: map<string, string>)
    ensures values == Values(segments)
  {
    values := map[];
    for n := 0 to |segments|
      invariant values == Values(segments[..n])
    {
      assert segments[..n + 1][..n] == segments[..n];
      var i := IndexOf(segments[n], '=');
      if 0 < i < |segments[n]| {
        values := values[segments[n][..i] := segments[n][i + 1..]];
      }
    }
    assert segments[..|segments|] == segments;
  }

  function ParseRequestPath(filename: string): Result<Parsed, PathError> {
    var raw := Segments(SplitSlashes(StripSlashes(filename)));
    if raw == [] then Ok(Parsed(filename, None, "/", [], map[])) else
    var i := IndexOf(raw[0], '=');
    if i == |raw[0]| || raw[0][..i] != "id" then Ok(Parsed(filename, None, Join(raw), raw, map[])) else
    match NormalizeClientId(raw[0][i + 1..])
    case Err(e) => Err(e)
    case Ok(clientId) =>
      var message := raw[1..];
      Ok(Parsed(filename, Some(clientId), if message == [] then "/" else Join(message), message, Values(message)))
  }

  /** The id of a parsed path is normalized, so looking it up again finds the same session. */
  lemma ParsedNormalized(filename: string)
    requires ParseRequestPath(filename).Ok? && ParseRequestPath(filename).value.clientId.Some?
    ensures Normalized(ParseRequestPath(filename).value.clientId.value)
  {
    var first := Segments(SplitSlashes(StripSlashes(filename)))[0];
    NormalizeIdempotent(first[IndexOf(first, '=') + 1..]);
  }

  // ----- the paths the server hands out -----

  /** Keys a handler may ask the client to report. */
  predicate ReturnKey(key: string) {
    key != "" && forall i :: 0 <= i < |key| ==> key[i] != '/' && key[i] != '=' && key[i] != '\r' && key[i] != '\n'
  }

  /** A text that comes through a path as it is. */
  predicate Clean(s: string) {
    '/' !in s && Unquote(s) == s
  }

  /** A `key=value` segment. */
  function Pair(key: string, value: string): string {
    key + "=" + value
  }

  datatype Template = Template(clientId: string, token: string, recv: Option<string>, keys: seq<string>)

  function KeyPairs(keys: seq<string>, values: string -> string): (pairs: seq<string>)
    ensures |pairs| == |keys| && forall i :: 0 <= i < |keys| ==> pairs[i] == Pair(keys[i], values(keys[i]))
  {
    seq(|keys|, i requires 0 <= i < |keys| => Pair(keys[i], values(keys[i])))
  }

  function RecvPair(recv: Option<string>): seq<string> {
    match recv
    case None => []
    case Some(status) => [Pair("recv", status)]
  }

  /** The segments after `id=`, as the client expands them. */
  function MessageOf(t: Template, values: string -> string): seq<string> {
    [Pair("token", t.token)] + (RecvPair(t.recv) + KeyPairs(t.keys, values))
  }

  /** The path as requested: the client replaces `${key}` by the variable's text. */
  function Render(t: Template, values: string -> string): string {
    Pair("id", t.clientId) + Join(MessageOf(t, values))
  }
}
