/** Shared vocabulary: optional values, database ids and the few JavaScript
    string primitives (`trim`, `\s`, `\d`, `toLowerCase`) the storefront uses. */
module Common {

  datatype Option<+T> = None | Some(value: T)

  /** An opaque database id (a MongoDB ObjectId); fresh ids come from a counter. */
  type Id = nat

  /** ECMAScript WhiteSpace and LineTerminator code points: the set matched by
      the regular-expression class `\s` and removed by `String.prototype.trim`. */
  predicate IsSpace(c: char)
  {
    || c == ' ' || c == '\t' || c == '\n' || c == '\r' || c == '\U{000B}' || c == '\U{000C}'
    || c == '\U{00A0}' || c == '\U{1680}' || ('\U{2000}' <= c <= '\U{200A}')
    || c == '\U{2028}' || c == '\U{2029}' || c == '\U{202F}' || c == '\U{205F}'
    || c == '\U{3000}' || c == '\U{FEFF}'
  }

  /** The line terminators, which the regular-expression `.` does not match. */
  predicate IsLineTerminator(c: char)
  {
    c == '\n' || c == '\r' || c == '\U{2028}' || c == '\U{2029}'
  }

  /** The class `\d` (and `[0-9]`): ASCII digits only. */
  predicate IsDigit(c: char)
  {
    '0' <= c <= '9'
  }

  predicate AllDigits(s: string)
  {
    forall i :: 0 <= i < |s| ==> IsDigit(s[i])
  }

  predicate NoSpace(s: string)
  {
    forall i :: 0 <= i < |s| ==> !IsSpace(s[i])
  }

  /** `s.trimStart()` */
  function TrimStart(s: string): (r: string)
    ensures |r| <= |s| && r == s[|s| - |r|..]
    ensures r == [] || !IsSpace(r[0])
    ensures forall i :: 0 <= i < |s| - |r| ==> IsSpace(s[i])
  {
    if |s| > 0 && IsSpace(s[0]) then TrimStart(s[1..]) else s
  }

  /** `s.trimEnd()` */
  function TrimEnd(s: string): (r: string)
    ensures |r| <= |s| && r == s[..|r|]
    ensures r == [] || !IsSpace(r[|r| - 1])
    ensures forall i :: |r| <= i < |s| ==> IsSpace(s[i])
  {
    if |s| > 0 && IsSpace(s[|s| - 1]) then TrimEnd(s[..|s| - 1]) else s
  }

  /** `s.trim()` */
  function Trim(s: string): (r: string)
    ensures |r| <= |s|
    ensures r == [] || (!IsSpace(r[0]) && !IsSpace(r[|r| - 1]))
  {
    TrimEnd(TrimStart(s))
  }

  /** A string the `trim` setter leaves as it is. */
  predicate IsTrimmed(s: string)
  {
    s == [] || (!IsSpace(s[0]) && !IsSpace(s[|s| - 1]))
  }

  /** A string with no white space at either end is its own trim. */
  lemma {:induction false} TrimOfTrimmed(s: string)
    requires IsTrimmed(s)
    ensures Trim(s) == s
  {
    assert TrimStart(s) == s;
  }

  lemma {:induction false} TrimIdempotent(s: string)
    ensures Trim(Trim(s)) == Trim(s)
  {
    assert IsTrimmed(Trim(s));
    TrimOfTrimmed(Trim(s));
  }

  /** `s.replace(/\s/g, "")` */
  function StripSpaces(s: string): (r: string)
    ensures |r| <= |s| && NoSpace(r)
  {
    if s == [] then []
    else if IsSpace(s[0]) then StripSpaces(s[1..])
    else [s[0]] + StripSpaces(s[1..])
  }

  /** `s.replace(/\D/g, "")` */
  function OnlyDigits(s: string): (r: string)
    ensures |r| <= |s| && AllDigits(r)
  {
    if s == [] then []
    else if IsDigit(s[0]) then [s[0]] + OnlyDigits(s[1..])
    else OnlyDigits(s[1..])
  }

  function LowerChar(c: char): char
  {
    if 'A' <= c <= 'Z' then (c as int + 32) as char else c
  }

  /** `s.toLowerCase()`, on the ASCII letters. */
  function ToLower(s: string): (r: string)
    ensures |r| == |s|
    ensures forall i :: 0 <= i < |s| ==> r[i] == LowerChar(s[i])
  {
    if s == [] then [] else [LowerChar(s[0])] + ToLower(s[1..])
  }

  lemma {:induction false} StripSpacesAppend(a: string, b: string)
    ensures StripSpaces(a + b) == StripSpaces(a) + StripSpaces(b)
  {
    if a == [] {
      assert a + b == b;
    } else {
      assert (a + b)[1..] == a[1..] + b;
      StripSpacesAppend(a[1..], b);
    }
  }

  lemma {:induction false} StripSpacesOfNoSpace(s: string)
    requires NoSpace(s)
    ensures StripSpaces(s) == s
  {
    if s != [] {
      StripSpacesOfNoSpace(s[1..]);
    }
  }

  lemma {:induction false} OnlyDigitsOfDigits(s: string)
    requires AllDigits(s)
    ensures OnlyDigits(s) == s
  {
    if s != [] {
      OnlyDigitsOfDigits(s[1..]);
    }
  }

  lemma {:induction false} OnlyDigitsAppend(a: string, b: string)
    ensures OnlyDigits(a + b) == OnlyDigits(a) + OnlyDigits(b)
  {
    if a == [] {
      assert a + b == b;
    } else {
      assert (a + b)[1..] == a[1..] + b;
      OnlyDigitsAppend(a[1..], b);
    }
  }

  /** White space at either end is all `trim` removes, and `\s` removal
      removes it too. */
  lemma {:induction false} StripSpacesOfTrim(s: string)
    ensures StripSpaces(Trim(s)) == StripSpaces(s)
  {
    StripSpacesOfTrimStart(s);
    StripSpacesOfTrimEnd(TrimStart(s));
  }

  lemma {:induction false} StripSpacesOfTrimStart(s: string)
    ensures StripSpaces(TrimStart(s)) == StripSpaces(s)
  {
    if |s| > 0 && IsSpace(s[0]) {
      StripSpacesOfTrimStart(s[1..]);
    }
  }

  lemma {:induction false} StripSpacesOfTrimEnd(s: string)
    ensures StripSpaces(TrimEnd(s)) == StripSpaces(s)
  {
    var u := TrimEnd(s);
    assert s == u + s[|u|..];
    StripSpacesAppend(u, s[|u|..]);
    StripSpacesOfSpaces(s[|u|..]);
  }

  lemma {:induction false} StripSpacesOfSpaces(s: string)
    requires forall i :: 0 <= i < |s| ==> IsSpace(s[i])
    ensures StripSpaces(s) == []
  {
    if s != [] {
      StripSpacesOfSpaces(s[1..]);
    }
  }
}
