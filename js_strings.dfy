/**
 * The JavaScript string operations the authentication code relies on:
 * `String.prototype.trim`, `toLowerCase`, `replace` with a string pattern,
 * and truthiness of an optional string.
 */
module JsStrings {
  import opened Wrappers

  /** The characters `trim` removes: ECMAScript WhiteSpace and LineTerminator code points. */
  predicate IsWhiteSpace(c: char) {
    || c == '\t' || c == '\n' || c == '\U{000B}' || c == '\U{000C}' || c == '\r' || c == ' '
    || c == '\U{00A0}' || c == '\U{1680}' || ('\U{2000}' <= c <= '\U{200A}')
    || c == '\U{2028}' || c == '\U{2029}' || c == '\U{202F}' || c == '\U{205F}'
    || c == '\U{3000}' || c == '\U{FEFF}'
  }

  /** True when every character of `s` is white space (vacuously for ""). */
  predicate AllWhiteSpace(s: string) {
    forall i :: 0 <= i < |s| ==> IsWhiteSpace(s[i])
  }

  /** `s` without its leading white space. */
  function TrimStart(s: string): (r: string)
    ensures |r| <= |s| && r == s[|s| - |r|..]
    ensures r == [] || !IsWhiteSpace(r[0])
    ensures AllWhiteSpace(s[..|s| - |r|])
  {
    if s != [] && IsWhiteSpace(s[0]) then TrimStart(s[1..]) else s
  }

  /** `s` without its trailing white space. */
  function TrimEnd(s: string): (r: string)
    ensures |r| <= |s| && r == s[..|r|]
    ensures r == [] || !IsWhiteSpace(r[|r| - 1])
    ensures AllWhiteSpace(s[|r|..])
  {
    if s != [] && IsWhiteSpace(s[|s| - 1]) then TrimEnd(s[..|s| - 1]) else s
  }

  /** `s.trim()`. */
  function Trim(s: string): string {
    TrimEnd(TrimStart(s))
  }

  /** A string of white space only trims to "" from the left already. */
  lemma {:induction false} TrimStartOfWhiteSpace(s: string)
    requires AllWhiteSpace(s)
    ensures TrimStart(s) == []
    decreases |s|
  {
    if s != [] {
      assert AllWhiteSpace(s[1..]) by {
        forall i | 0 <= i < |s[1..]| ensures IsWhiteSpace(s[1..][i]) {
          assert s[1..][i] == s[i + 1];
        }
      }
      TrimStartOfWhiteSpace(s[1..]);
    }
  }

  /** `s.trim() === ""` holds exactly when `s` consists of white space only. */
  lemma TrimIsEmptyIff(s: string)
    ensures Trim(s) == "" <==> AllWhiteSpace(s)
  {
    var t := TrimStart(s);
    if AllWhiteSpace(s) {
      TrimStartOfWhiteSpace(s);
    }
    if Trim(s) == "" {
      assert t[0..] == t;
      assert t == [];
      assert s[..|s|] == s;
    }
  }

  /** `field?.trim() === ""`: a present string that is empty after trimming. An absent field is not blank. */
  predicate IsBlank(field: Option<string>) {
    field.Some? && Trim(field.value) == ""
  }

  /** `[...].some(f => f?.trim() === "")`. */
  predicate AnyBlank(fields: seq<Option<string>>) {
    exists i :: 0 <= i < |fields| && IsBlank(fields[i])
  }

  /** The three-field check of the login handler, field by field. */
  lemma AnyBlankOfThree(a: Option<string>, b: Option<string>, c: Option<string>)
    ensures AnyBlank([a, b, c]) <==> IsBlank(a) || IsBlank(b) || IsBlank(c)
  {
    var fields := [a, b, c];
    if AnyBlank(fields) {
      var i :| 0 <= i < |fields| && IsBlank(fields[i]);
      assert i == 0 || i == 1 || i == 2;
    }
    if IsBlank(a) { assert IsBlank(fields[0]); }
    if IsBlank(b) { assert IsBlank(fields[1]); }
    if IsBlank(c) { assert IsBlank(fields[2]); }
  }

  /** JavaScript truthiness of an optional string: present and not "". */
  predicate Truthy(v: Option<string>) {
    v.Some? && v.value != ""
  }

  /** Lower-cases one character; only the ASCII letters A-Z are mapped. */
  function LowerChar(c: char): (d: char)
    ensures !('A' <= d <= 'Z')
    ensures 'A' <= c <= 'Z' || d == c
  {
    if 'A' <= c <= 'Z' then (c as int + 32) as char else c
  }

  /** `s.toLowerCase()` on the ASCII letters. */
  function ToLowerCase(s: string): (r: string)
    ensures |r| == |s|
    ensures forall i :: 0 <= i < |s| ==> r[i] == LowerChar(s[i])
  {
    if s == [] then [] else [LowerChar(s[0])] + ToLowerCase(s[1..])
  }

  /** `pat` occurs in `s` starting at index `i`. */
  predicate OccursAt(s: string, pat: string, i: nat) {
    i + |pat| <= |s| && s[i..i + |pat|] == pat
  }

  /** The first index at or after `from` where `pat` occurs in `s`, if any. */
  function IndexOfFrom(s: string, pat: string, from: nat): (r: Option<nat>)
    ensures r.Some? ==> from <= r.value && OccursAt(s, pat, r.value)
    ensures r.Some? ==> forall k :: from <= k < r.value ==> !OccursAt(s, pat, k)
    ensures r.None? ==> forall k :: from <= k ==> !OccursAt(s, pat, k)
    decreases |s| - from
  {
    if from + |pat| > |s| then None
    else if s[from..from + |pat|] == pat then Some(from)
    else IndexOfFrom(s, pat, from + 1)
  }

  /** `s.replace(pat, rep)` with a string pattern: only the first occurrence is replaced. */
  function ReplaceFirst(s: string, pat: string, rep: string): string {
    match IndexOfFrom(s, pat, 0)
    case None => s
    case Some(i) => s[..i] + rep + s[i + |pat|..]
  }

  /** Replacing a pattern that starts the string by "" strips exactly that prefix. */
  lemma ReplaceLeadingPattern(pat: string, t: string)
    ensures ReplaceFirst(pat + t, pat, "") == t
  {
    assert OccursAt(pat + t, pat, 0);
    assert (pat + t)[|pat|..] == t;
  }

  /** A string in which the pattern does not occur is returned unchanged. */
  lemma ReplaceAbsentPattern(s: string, pat: string, rep: string)
    requires forall k: nat :: !OccursAt(s, pat, k)
    ensures ReplaceFirst(s, pat, rep) == s
  {
  }

  /** Only the first occurrence is removed: a later occurrence survives. */
  lemma ReplaceOnlyFirst(pat: string)
    requires pat != ""
    ensures ReplaceFirst(pat + pat, pat, "") == pat
  {
    ReplaceLeadingPattern(pat, pat);
  }
}
