/**
 * The `trim` fallback of common.js, `replace(/^\s+|\s+$/g, "")`: the global
 * replacement deletes the run of white space at the start of the string and
 * the run at its end, and nothing in between.
 */
module StringTrim {

  /**
   * Membership in the `\s` class of ECMAScript regular expressions: the
   * WhiteSpace characters (tab, vertical tab, form feed, space, no-break
   * space, the byte order mark and the other space separators) and the
   * LineTerminator characters.
   */
  predicate IsWS(c: char)
  {
    || c == '\t' || c == '\U{000B}' || c == '\U{000C}' || c == ' ' || c == '\U{00A0}' || c == '\U{FEFF}'
    || c == '\U{1680}' || ('\U{2000}' <= c <= '\U{200A}') || c == '\U{202F}' || c == '\U{205F}' || c == '\U{3000}'
    || c == '\n' || c == '\r' || c == '\U{2028}' || c == '\U{2029}'
  }

  /** What `^\s+` leaves: the string without its leading white space. */
  function DropLeadingWS(s: string): (r: string)
    ensures |r| <= |s| && r == s[|s| - |r|..]
    ensures r == [] || !IsWS(r[0])
    ensures forall k :: 0 <= k < |s| - |r| ==> IsWS(s[k])
  {
    if s != [] && IsWS(s[0]) then DropLeadingWS(s[1..]) else s
  }

  /** What `\s+$` leaves: the string without its trailing white space. */
  function DropTrailingWS(s: string): (r: string)
    ensures |r| <= |s| && r == s[..|r|]
    ensures r == [] || !IsWS(r[|r| - 1])
    ensures forall k :: |r| <= k < |s| ==> IsWS(s[k])
  {
    if s != [] && IsWS(s[|s| - 1]) then DropTrailingWS(s[..|s| - 1]) else s
  }

  /** The trimmed string: no white space at either end. */
  function Trim(s: string): (r: string)
    ensures |r| <= |s|
    ensures r == [] || (!IsWS(r[0]) && !IsWS(r[|r| - 1]))
  {
    DropTrailingWS(DropLeadingWS(s))
  }

  /**
   * `r` is `s` with a run of white space removed from each end, and has no
   * white space left at either end: the interior of `s` is kept as it is.
   */
  ghost predicate IsTrimOf(s: string, r: string)
  {
    && (r == [] || (!IsWS(r[0]) && !IsWS(r[|r| - 1])))
    && exists i, j :: 0 <= i <= j <= |s| && r == s[i..j]
         && (forall k :: 0 <= k < i ==> IsWS(s[k]))
         && (forall k :: j <= k < |s| ==> IsWS(s[k]))
  }

  /** `Trim` removes white space at the ends and keeps a contiguous piece of its input. */
  lemma TrimIsTrimOf(s: string)
    ensures IsTrimOf(s, Trim(s))
  {
    var t := DropLeadingWS(s);
    var i := |s| - |t|;
    var r := DropTrailingWS(t);
    var j := i + |r|;
    assert r == s[i..j];
    assert forall k :: j <= k < |s| ==> s[k] == t[k - i];
  }

  /** The leading run is exactly `s[..i]` when it is white space and `s[i]` is not. */
  lemma {:induction false} DropLeadingExact(s: string, i: nat)
    requires i <= |s|
    requires forall k :: 0 <= k < i ==> IsWS(s[k])
    requires i == |s| || !IsWS(s[i])
    ensures DropLeadingWS(s) == s[i..]
  {
    if i > 0 {
      assert IsWS(s[0]);
      assert forall k :: 0 <= k < i - 1 ==> s[1..][k] == s[k + 1];
      DropLeadingExact(s[1..], i - 1);
      assert s[1..][i - 1..] == s[i..];
    }
  }

  /** The trailing run is exactly `s[j..]` when it is white space and `s[j - 1]` is not. */
  lemma {:induction false} DropTrailingExact(s: string, j: nat)
    requires j <= |s|
    requires forall k :: j <= k < |s| ==> IsWS(s[k])
    requires j == 0 || !IsWS(s[j - 1])
    ensures DropTrailingWS(s) == s[..j]
  {
    if j < |s| {
      var n := |s| - 1;
      assert IsWS(s[n]);
      assert forall k :: 0 <= k < n ==> s[..n][k] == s[k];
      DropTrailingExact(s[..n], j);
      assert s[..n][..j] == s[..j];
    }
  }

  /** `Trim(s)` is the only string that is a trim of `s`. */
  lemma TrimUnique(s: string, r: string)
    requires IsTrimOf(s, r)
    ensures r == Trim(s)
  {
    var i, j :| 0 <= i <= j <= |s| && r == s[i..j]
      && (forall k :: 0 <= k < i ==> IsWS(s[k]))
      && (forall k :: j <= k < |s| ==> IsWS(s[k]));
    if r == [] {
      DropLeadingExact(s, |s|);
    } else {
      TrimOfSlice(s, i, j);
    }
  }

  lemma TrimOfSlice(s: string, i: nat, j: nat)
    requires i < j <= |s|
    requires forall k :: 0 <= k < i ==> IsWS(s[k])
    requires forall k :: j <= k < |s| ==> IsWS(s[k])
    requires !IsWS(s[i]) && !IsWS(s[j - 1])
    ensures Trim(s) == s[i..j]
  {
    DropLeadingExact(s, i);
    TrailingOfSuffix(s, i, j);
  }

  lemma TrailingOfSuffix(s: string, i: nat, j: nat)
    requires i < j <= |s|
    requires forall k :: j <= k < |s| ==> IsWS(s[k])
    requires !IsWS(s[j - 1])
    ensures DropTrailingWS(s[i..]) == s[i..j]
  {
    var t := s[i..];
    assert t[j - i - 1] == s[j - 1];
    forall k | j - i <= k < |t|
      ensures IsWS(t[k])
    {
      assert t[k] == s[k + i];
    }
    DropTrailingExact(t, j - i);
    assert t[..j - i] == s[i..j];
  }

  /** Trimming twice is trimming once. */
  lemma TrimIdempotent(s: string)
    ensures Trim(Trim(s)) == Trim(s)
  {
    var r := Trim(s);
    assert r == r[0..|r|];
    TrimUnique(r, r);
  }

  /** A string with no white space at either end is left as it is. */
  lemma TrimKeepsTrimmed(s: string)
    requires s == [] || (!IsWS(s[0]) && !IsWS(s[|s| - 1]))
    ensures Trim(s) == s
  {
    assert s == s[0..|s|];
    TrimUnique(s, s);
  }

  /** A string of white space only trims to the empty string. */
  lemma TrimAllWhiteSpace(s: string)
    requires forall k :: 0 <= k < |s| ==> IsWS(s[k])
    ensures Trim(s) == ""
  {
    DropLeadingExact(s, |s|);
  }
}
