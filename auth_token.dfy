/**
 * The session helpers of the admin front end: reading the payload of a JWT without checking
 * its signature, and deciding whether the token has expired. `atob`, `JSON.parse`, the clock
 * and JavaScript's numeric coercion are passed in.
 */
module AuthToken {
  import opened Wrappers
  import opened Text
  import opened Js

  /** The position of the first `c` in `s`, or -1. */
  function IndexOf(s: string, c: char): (r: int)
    ensures r == -1 <==> c !in s
    ensures r != -1 ==> 0 <= r < |s| && s[r] == c && c !in s[..r]
  {
    if s == [] then -1
    else if s[0] == c then 0
    else
      var r := IndexOf(s[1..], c);
      assert r != -1 ==> s[..r + 1] == [s[0]] + s[1..][..r];
      if r == -1 then -1 else r + 1
  }

  /**
   * `token.split('.')[1]`: the text from just after the first dot up to the next dot or the
   * end, and `None` (`undefined`) when the token has no dot.
   */
  function SecondSegment(token: string): (r: Option<string>)
    ensures r.None? <==> '.' !in token
    ensures r.Some? ==> '.' !in r.value
    ensures r.Some? ==>
      var start := IndexOf(token, '.') + 1;
      var end := start + |r.value|;
      end <= |token| && token[start..end] == r.value && (end == |token| || token[end] == '.')
  {
    var i := IndexOf(token, '.');
    if i == -1 then None
    else
      var rest := token[i + 1..];
      var j := IndexOf(rest, '.');
      Some(if j == -1 then rest else rest[..j])
  }

  /** `.replace(/-/g, '+').replace(/_/g, '/')`: the URL-safe base64 alphabet mapped to the standard one. */
  function Normalized(payload: string): (r: string)
    ensures |r| == |payload|
    ensures forall i :: 0 <= i < |r| ==>
      r[i] == (if payload[i] == '-' then '+' else if payload[i] == '_' then '/' else payload[i])
    ensures '-' !in r && '_' !in r
  {
    seq(|payload|, i requires 0 <= i < |payload| =>
      if payload[i] == '-' then '+' else if payload[i] == '_' then '/' else payload[i])
  }

  /** `'='.repeat((4 - (length % 4)) % 4)`. */
  function Padding(length: nat): (r: string)
    ensures |r| <= 3
    ensures (length + |r|) % 4 == 0
    ensures forall i :: 0 <= i < |r| ==> r[i] == '='
    ensures length % 4 == 0 ==> r == ""
  {
    Repeat('=', (4 - length % 4) % 4)
  }

  /** The text handed to `atob`: the normalised segment padded to a multiple of four characters. */
  function Padded(payload: string): (r: string)
    ensures |r| % 4 == 0 && |payload| <= |r| <= |payload| + 3
    ensures r[..|payload|] == Normalized(payload)
    ensures forall i :: |payload| <= i < |r| ==> r[i] == '='
  {
    Normalized(payload) + Padding(|payload|)
  }

  /**
   * `decodeTokenPayload`: `None` (null) without a non-empty second segment, or when `atob` or
   * `JSON.parse` throws; otherwise the parsed payload.
   */
  function DecodeTokenPayload(token: string, atob: string -> Option<string>, parse: string -> Option<Json>): (r: Option<Json>)
    ensures SecondSegment(token).None? || SecondSegment(token).value == "" ==> r.None?
    ensures SecondSegment(token).Some? && SecondSegment(token).value != "" ==>
      var decoded := atob(Padded(SecondSegment(token).value));
      r == (if decoded.None? then None else parse(decoded.value))
  {
    var payload := SecondSegment(token);
    if payload.None? || payload.value == "" then None
    else
      var decoded := atob(Padded(payload.value));
      if decoded.None? then None else parse(decoded.value)
  }

  /**
   * `isTokenExpired`: true for an empty token; false when the payload cannot be read or its
   * `exp` is missing or falsy; otherwise whether `nowMs >= exp * 1000`, with `exp` coerced to a
   * number (`None` for NaN, against which every comparison is false).
   */
  function IsTokenExpired(token: string, nowMs: real, atob: string -> Option<string>,
                          parse: string -> Option<Json>, toNumber: Json -> Option<real>): (r: bool)
    ensures token == "" ==> r
    ensures token != "" && DecodeTokenPayload(token, atob, parse).None? ==> !r
    ensures token != "" && DecodeTokenPayload(token, atob, parse).Some? ==>
      var exp := Property(DecodeTokenPayload(token, atob, parse).value, "exp");
      if exp.None? || Falsy(exp.value) then !r
      else r <==> toNumber(exp.value).Some? && nowMs >= toNumber(exp.value).value * 1000.0
  {
    if token == "" then true
    else
      var payload := DecodeTokenPayload(token, atob, parse);
      if payload.None? then false
      else
        var exp := Property(payload.value, "exp");
        if exp.None? || Falsy(exp.value) then false
        else
          var n := toNumber(exp.value);
          n.Some? && nowMs >= n.value * 1000.0
  }

  /** A token that has expired stays expired as the clock moves on. */
  lemma ExpiryIsPermanent(token: string, nowMs: real, laterMs: real, atob: string -> Option<string>,
                          parse: string -> Option<Json>, toNumber: Json -> Option<real>)
    requires nowMs <= laterMs
    requires IsTokenExpired(token, nowMs, atob, parse, toNumber)
    ensures IsTokenExpired(token, laterMs, atob, parse, toNumber)
  {
  }

  /** A token without a dot, or with nothing after its first dot, never counts as expired. */
  lemma UnreadableTokenNeverExpires(token: string, nowMs: real, atob: string -> Option<string>,
                                    parse: string -> Option<Json>, toNumber: Json -> Option<real>)
    requires token != ""
    requires SecondSegment(token).None? || SecondSegment(token).value == ""
    ensures !IsTokenExpired(token, nowMs, atob, parse, toNumber)
  {
  }
}
