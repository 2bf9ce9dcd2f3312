/**
  String helpers shared by the task form and the login form: the whitespace
  class of ECMAScript (what `String.prototype.trim` strips and what `\s` in a
  regular expression matches) and `trim` itself.
*/
module Text {

  /** ECMAScript WhiteSpace and LineTerminator code points. */
  predicate IsSpace(c: char)
    ensures IsSpace(c) ==> c < '\U{10000}'
  {
    || c == '\t' || c == '\n' || c == '\U{000B}' || c == '\U{000C}' || c == '\r'
    || c == ' ' || c == '\U{00A0}' || c == '\U{1680}'
    || ('\U{2000}' <= c <= '\U{200A}')
    || c == '\U{2028}' || c == '\U{2029}' || c == '\U{202F}' || c == '\U{205F}'
    || c == '\U{3000}' || c == '\U{FEFF}'
  }

  /** Where the text of `s` starts: the index of its first non-whitespace character, or `|s|`. */
  function TextStart(s: string): (i: nat)
    ensures i <= |s|
    ensures forall k :: 0 <= k < i ==> IsSpace(s[k])
    ensures i < |s| ==> !IsSpace(s[i])
  {
    if s == [] || !IsSpace(s[0]) then 0 else 1 + TextStart(s[1..])
  }

  /** Where the text of `s` ends: one past its last non-whitespace character, or 0. */
  function TextEnd(s: string): (j: nat)
    ensures j <= |s|
    ensures forall k :: j <= k < |s| ==> IsSpace(s[k])
    ensures 0 < j ==> !IsSpace(s[j - 1])
  {
    if s == [] || !IsSpace(s[|s| - 1]) then |s| else TextEnd(s[..|s| - 1])
  }

  /** `s.trim()`: the text between the leading and the trailing whitespace. */
  function Trim(s: string): (r: string)
    ensures |r| <= |s|
    ensures r != [] ==> !IsSpace(r[0]) && !IsSpace(r[|r| - 1])
  {
    if TextStart(s) < TextEnd(s) then s[TextStart(s)..TextEnd(s)] else []
  }

  /**
    `s.length`: the number of UTF-16 code units, one for a character of the Basic
    Multilingual Plane and two (a surrogate pair) for any character above it.
  */
  function Utf16Length(s: string): (n: nat)
    ensures |s| <= n <= 2 * |s|
    ensures n == |s| <==> forall k :: 0 <= k < |s| ==> s[k] < '\U{10000}'
  {
    if s == [] then 0
    else
      assert forall k :: 0 <= k < |s| - 1 ==> s[1..][k] == s[k + 1];
      (if s[0] < '\U{10000}' then 1 else 2) + Utf16Length(s[1..])
  }

  /** A string with any text in it has its start before its end. */
  lemma StartBeforeEnd(s: string)
    ensures TextStart(s) < |s| <==> TextStart(s) < TextEnd(s)
  {
    if TextStart(s) < |s| {
      assert !IsSpace(s[TextStart(s)]);
    }
  }

  /**
    What `trim` promises: the result is the slice `s[i..j]` of the input such that
    everything cut off is whitespace and the slice neither starts nor ends with it.
  */
  lemma TrimIsSlice(s: string)
    ensures exists i, j ::
              && 0 <= i <= j <= |s| && Trim(s) == s[i..j]
              && (forall k :: 0 <= k < i ==> IsSpace(s[k]))
              && (forall k :: j <= k < |s| ==> IsSpace(s[k]))
    ensures Trim(s) != [] ==> !IsSpace(Trim(s)[0]) && !IsSpace(Trim(s)[|Trim(s)| - 1])
  {
    StartBeforeEnd(s);
    var i := TextStart(s);
    if i < TextEnd(s) {
      assert Trim(s) == s[i..TextEnd(s)];
    } else {
      assert Trim(s) == s[|s|..|s|];
    }
  }

  /** A string trims to nothing exactly when every character of it is whitespace. */
  lemma TrimEmptyIff(s: string)
    ensures Trim(s) == [] <==> forall k :: 0 <= k < |s| ==> IsSpace(s[k])
  {
    StartBeforeEnd(s);
    if TextStart(s) < |s| {
      assert !IsSpace(s[TextStart(s)]);
    }
  }

  /** Trimming twice changes nothing more than trimming once. */
  lemma TrimIdempotent(s: string)
    ensures Trim(Trim(s)) == Trim(s)
  {
    var t := Trim(s);
    if t != [] {
      TrimIsSlice(s);
      assert !IsSpace(t[0]) && !IsSpace(t[|t| - 1]);
      assert TextStart(t) == 0 && TextEnd(t) == |t|;
      assert t[0..|t|] == t;
    }
  }
}
