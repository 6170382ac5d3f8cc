/**
 * The few JavaScript value rules the handlers rely on: truthiness of request
 * fields, String.prototype.trim, the first-occurrence String.prototype.replace
 * used on the Authorization header, the decimal rendering of Date.now(), and
 * Mongoose's cast of a request value to a Boolean path.
 */
module Js {
  import opened Wrappers

  /** A request field that is either absent (undefined) or a string. */
  predicate Truthy(v: Option<string>) {
    v.Some? && v.value != ""
  }

  /** A request value where the handler distinguishes booleans from strings. */
  datatype JsValue = Undefined | Null | Bool(b: bool) | Str(s: string)

  predicate JsTruthy(v: JsValue) {
    match v
    case Undefined => false
    case Null => false
    case Bool(b) => b
    case Str(s) => s != ""
  }

  /**
   * Mongoose's cast of a value to a Boolean schema path: true, "true", "1" and
   * "yes" become true; false, "false", "0" and "no" become false; anything else
   * is a cast error (None).
   */
  function CastBoolean(v: JsValue): (r: Option<bool>)
    ensures v.Bool? ==> r == Some(v.b)
    ensures r == Some(true) <==> v in {Bool(true), Str("true"), Str("1"), Str("yes")}
    ensures r == Some(false) <==> v in {Bool(false), Str("false"), Str("0"), Str("no")}
  {
    match v
    case Bool(b) => Some(b)
    case Str(s) =>
      if s == "true" || s == "1" || s == "yes" then Some(true)
      else if s == "false" || s == "0" || s == "no" then Some(false)
      else None
    case _ => None
  }

  /**
   * The characters String.prototype.trim removes: ECMAScript's WhiteSpace
   * (tab, vertical tab, form feed, the byte order mark and every space
   * separator of Unicode category Zs) and its LineTerminators.
   */
  predicate IsWhitespace(c: char) {
    c == '\t' || c == '\U{B}' || c == '\U{C}' || c == '\U{FEFF}'
    || c == ' ' || c == '\U{A0}' || c == '\U{1680}' || '\U{2000}' <= c <= '\U{200A}'
    || c == '\U{202F}' || c == '\U{205F}' || c == '\U{3000}'
    || c == '\n' || c == '\r' || c == '\U{2028}' || c == '\U{2029}'
  }

  predicate IsBlank(s: string) {
    forall i :: 0 <= i < |s| ==> IsWhitespace(s[i])
  }

  /** The first position at or after `i` that is not white space (|s| when there is none). */
  function SkipSpaces(s: string, i: nat): (k: nat)
    requires i <= |s|
    ensures i <= k <= |s|
    ensures forall m :: i <= m < k ==> IsWhitespace(s[m])
    ensures k < |s| ==> !IsWhitespace(s[k])
    decreases |s| - i
  {
    if i < |s| && IsWhitespace(s[i]) then SkipSpaces(s, i + 1) else i
  }

  /** The end of `s[..j]` once its trailing white space is dropped. */
  function DropTrailingSpaces(s: string, j: nat): (k: nat)
    requires j <= |s|
    ensures k <= j
    ensures forall m :: k <= m < j ==> IsWhitespace(s[m])
    ensures k > 0 ==> !IsWhitespace(s[k - 1])
  {
    if j > 0 && IsWhitespace(s[j - 1]) then DropTrailingSpaces(s, j - 1) else j
  }

  /**
   * String.prototype.trim: white space is removed from both ends, so the
   * result is empty exactly when the input is all white space, and otherwise
   * starts and ends with a character that is not.
   */
  function Trim(s: string): (r: string)
    ensures r == "" <==> IsBlank(s)
    ensures r != "" ==> !IsWhitespace(r[0]) && !IsWhitespace(r[|r| - 1])
  {
    var a := SkipSpaces(s, 0);
    if a == |s| then ""
    else
      var b := DropTrailingSpaces(s, |s|);
      assert a < b;
      s[a..b]
  }

  /**
   * `field.trim() === ""` for a present string field, decided without
   * computing the trim (TrimmedEmpty shows the two agree).
   */
  predicate TrimsToEmpty(s: string) {
    IsBlank(s)
  }

  lemma TrimmedEmpty(s: string)
    ensures TrimsToEmpty(s) <==> Trim(s) == ""
  {
  }

  /** `!field || field.trim() === ""`: absent, empty or only whitespace. */
  predicate MissingOrBlank(v: Option<string>) {
    !Truthy(v) || TrimsToEmpty(v.value)
  }

  predicate OccursAt(s: string, pat: string, i: nat) {
    i + |pat| <= |s| && s[i..i + |pat|] == pat
  }

  /** The first index at or after `from` where `pat` occurs in `s`. */
  function FirstOccurrence(s: string, pat: string, from: nat): (r: Option<nat>)
    decreases |s| - from
    ensures r.Some? ==> from <= r.value && OccursAt(s, pat, r.value)
    ensures r.Some? ==> forall j :: from <= j < r.value ==> !OccursAt(s, pat, j)
    ensures r.None? ==> forall j :: from <= j ==> !OccursAt(s, pat, j)
  {
    if from + |pat| > |s| then None
    else if s[from..from + |pat|] == pat then Some(from)
    else FirstOccurrence(s, pat, from + 1)
  }

  /** String.prototype.replace with a string pattern: only the first occurrence is replaced. */
  function ReplaceFirst(s: string, pat: string, rep: string): (r: string)
    ensures FirstOccurrence(s, pat, 0).None? ==> r == s
    ensures FirstOccurrence(s, pat, 0).Some? ==>
      var i := FirstOccurrence(s, pat, 0).value; r == s[..i] + rep + s[i + |pat|..]
  {
    match FirstOccurrence(s, pat, 0)
    case None => s
    case Some(i) => s[..i] + rep + s[i + |pat|..]
  }

  /** Removing "Bearer " from "Bearer <t>" yields <t>, whatever <t> contains. */
  lemma {:induction false} ReplaceFirstAtStart(pat: string, t: string)
    requires pat != ""
    ensures ReplaceFirst(pat + t, pat, "") == t
  {
    var s := pat + t;
    assert s[0..|pat|] == pat;
    assert OccursAt(s, pat, 0);
    var i := FirstOccurrence(s, pat, 0).value;
    assert i == 0;
    assert s[i + |pat|..] == t;
  }

  function DigitChar(d: nat): char
    requires d < 10
  {
    ('0' as int + d) as char
  }

  /** The decimal rendering of a non-negative integer, as template literals print Date.now(). */
  function DecimalString(n: nat): (r: string)
    ensures r != ""
    ensures forall i :: 0 <= i < |r| ==> '0' <= r[i] <= '9'
  {
    if n < 10 then [DigitChar(n)] else DecimalString(n / 10) + [DigitChar(n % 10)]
  }
}
