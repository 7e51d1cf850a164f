/**
 Player names as `setPlayerNames` cleans them: surrounding whitespace is
 trimmed, and a name that trims to nothing is replaced by a default.
 Whitespace is the fixed set of characters `IsSpace` lists.
 */
module Names {

  /** The characters treated as whitespace when trimming. */
  predicate IsSpace(c: char) {
    || c == ' ' || c == '\t' || c == '\n' || c == '\r'
    || c == '\U{000B}' || c == '\U{000C}' || c == '\U{00A0}' || c == '\U{FEFF}'
  }

  /** Every character of `s` is whitespace (true of the empty string). */
  predicate AllSpace(s: string) {
    forall i | 0 <= i < |s| :: IsSpace(s[i])
  }

  /** `s` neither starts nor ends with whitespace. */
  predicate Trimmed(s: string) {
    s == [] || (!IsSpace(s[0]) && !IsSpace(s[|s| - 1]))
  }

  /** Index of the first non-whitespace character of `s` at or after `i` (|s| if none). */
  function SkipLeading(s: string, i: nat): (j: nat)
    requires i <= |s|
    ensures i <= j <= |s|
    ensures forall k | i <= k < j :: IsSpace(s[k])
    ensures j == |s| || !IsSpace(s[j])
    decreases |s| - i
  {
    if i < |s| && IsSpace(s[i]) then SkipLeading(s, i + 1) else i
  }

  /** Index just past the last non-whitespace character of `s` before `j`, scanning no lower than `lo`. */
  function SkipTrailing(s: string, lo: nat, j: nat): (m: nat)
    requires lo <= j <= |s|
    ensures lo <= m <= j
    ensures forall k | m <= k < j :: IsSpace(s[k])
    ensures m == lo || !IsSpace(s[m - 1])
  {
    if lo < j && IsSpace(s[j - 1]) then SkipTrailing(s, lo, j - 1) else j
  }

  /** Where the trimmed string starts inside `s`. */
  function TrimStart(s: string): nat {
    SkipLeading(s, 0)
  }

  /**
   `trim`: `s` with its leading and trailing whitespace removed. The result is
   the slice of `s` that begins at `TrimStart(s)`, everything outside the slice
   is whitespace, the slice has no whitespace at either end, and it is empty
   exactly when `s` is whitespace only.
   */
  function Trim(s: string): (r: string)
    ensures TrimStart(s) + |r| <= |s|
    ensures r == s[TrimStart(s)..TrimStart(s) + |r|]
    ensures forall k | 0 <= k < TrimStart(s) :: IsSpace(s[k])
    ensures forall k | TrimStart(s) + |r| <= k < |s| :: IsSpace(s[k])
    ensures Trimmed(r)
    ensures r == [] <==> AllSpace(s)
  {
    var start := TrimStart(s);
    var end := SkipTrailing(s, start, |s|);
    s[start..end]
  }

  /** Trimming a string that has no whitespace at either end changes nothing. */
  lemma TrimOfTrimmed(s: string)
    requires Trimmed(s)
    ensures Trim(s) == s
  {
    assert TrimStart(s) == 0;
    assert SkipTrailing(s, 0, |s|) == |s|;
  }

  /** Trimming twice is the same as trimming once. */
  lemma TrimIdempotent(s: string)
    ensures Trim(Trim(s)) == Trim(s)
  {
    TrimOfTrimmed(Trim(s));
  }

  /**
   The name a player receives: the trimmed input, or `fallback` when the input
   is empty or whitespace only.
   */
  function NameOrDefault(s: string, fallback: string): (name: string)
    ensures AllSpace(s) ==> name == fallback
    ensures !AllSpace(s) ==> name != [] && Trimmed(name) && name == Trim(s)
  {
    var t := Trim(s);
    if t == [] then fallback else t
  }
}
