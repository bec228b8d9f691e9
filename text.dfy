/** String operations the generator borrows from JavaScript's `String.prototype`. */
module Text {

  /** `pat` occurs in `s` at position `i`. */
  predicate OccursAt(s: string, pat: string, i: nat) {
    i + |pat| <= |s| && s[i..i + |pat|] == pat
  }

  predicate StartsWith(s: string, pat: string) {
    OccursAt(s, pat, 0)
  }

  /** `\w` of a JavaScript regular expression without the `u` flag. */
  predicate IsWordChar(c: char) {
    ('A' <= c <= 'Z') || ('a' <= c <= 'z') || ('0' <= c <= '9') || c == '_'
  }

  predicate AllWord(s: string) {
    forall i :: 0 <= i < |s| ==> IsWordChar(s[i])
  }

  /** `s.replace(pat, '')` with a string pattern: only the FIRST occurrence
      of `pat` is removed, and `s` is returned unchanged when there is none. */
  function RemoveFirst(s: string, pat: string): string
    decreases |s|
  {
    if StartsWith(s, pat) then s[|pat|..]
    else if s == [] then s
    else [s[0]] + RemoveFirst(s[1..], pat)
  }

  lemma OccursAtTail(s: string, pat: string, j: nat)
    requires s != []
    ensures OccursAt(s[1..], pat, j) <==> OccursAt(s, pat, j + 1)
  {
    if j + 1 + |pat| <= |s| {
      assert s[1..][j..j + |pat|] == s[j + 1..j + 1 + |pat|];
    }
  }

  /** Concatenation regroups freely. */
  lemma AppendAssoc(a: string, b: string, c: string)
    ensures a + b + c == a + (b + c)
  {
  }

  /** Removing the first occurrence cuts exactly that occurrence out. */
  lemma {:induction false} RemoveFirstAt(s: string, pat: string, i: nat)
    requires OccursAt(s, pat, i)
    requires forall j: nat :: j < i ==> !OccursAt(s, pat, j)
    ensures RemoveFirst(s, pat) == s[..i] + s[i + |pat|..]
    decreases i
  {
    if i == 0 {
      assert StartsWith(s, pat);
    } else {
      NoEarlierOccurrenceTail(s, pat, i);
      calc {
        RemoveFirst(s, pat);
        [s[0]] + RemoveFirst(s[1..], pat);
        { RemoveFirstAt(s[1..], pat, i - 1); }
        [s[0]] + (s[1..][..i - 1] + s[1..][i - 1 + |pat|..]);
        { CutTail(s, i, i + |pat|); }
        s[..i] + s[i + |pat|..];
      }
    }
  }

  /** No occurrence before `i` means none before `i - 1` in the tail, and
      the text does not start with the pattern. */
  lemma NoEarlierOccurrenceTail(s: string, pat: string, i: nat)
    requires 0 < i && OccursAt(s, pat, i)
    requires forall j: nat :: j < i ==> !OccursAt(s, pat, j)
    ensures !StartsWith(s, pat) && s != []
    ensures OccursAt(s[1..], pat, i - 1)
    ensures forall j: nat :: j < i - 1 ==> !OccursAt(s[1..], pat, j)
  {
    assert !OccursAt(s, pat, 0);
    OccursAtTail(s, pat, i - 1);
    forall j: nat | j < i - 1 ensures !OccursAt(s[1..], pat, j) {
      OccursAtTail(s, pat, j);
    }
  }

  /** Cutting `s[i..k]` out of `s` is the first character followed by the
      same cut in the tail. */
  lemma CutTail(s: string, i: nat, k: nat)
    requires 0 < i <= k <= |s|
    ensures s[..i] + s[k..] == [s[0]] + (s[1..][..i - 1] + s[1..][k - 1..])
  {
    assert s[..i] == [s[0]] + s[1..][..i - 1];
    assert s[k..] == s[1..][k - 1..];
  }

  /** Without an occurrence, nothing is removed. */
  lemma {:induction false} RemoveFirstAbsent(s: string, pat: string)
    requires forall j: nat :: !OccursAt(s, pat, j)
    ensures RemoveFirst(s, pat) == s
    decreases |s|
  {
    assert !StartsWith(s, pat);
    if s != [] {
      forall j: nat ensures !OccursAt(s[1..], pat, j) {
        OccursAtTail(s, pat, j);
      }
      RemoveFirstAbsent(s[1..], pat);
    }
  }

  /** A leading occurrence is the first one: stripping a prefix gives the rest back. */
  lemma RemovePrefix(pat: string, rest: string)
    ensures RemoveFirst(pat + rest, pat) == rest
  {
    assert StartsWith(pat + rest, pat);
    assert (pat + rest)[|pat|..] == rest;
  }

  /** Only the first of two occurrences goes. */
  lemma RemoveOnlyFirst(pat: string)
    ensures RemoveFirst(pat + pat, pat) == pat
  {
    RemovePrefix(pat, pat);
  }

  /** `s.replace(/\n/g, ' ')`: every line feed becomes a space. */
  function SpaceNewlines(s: string): (r: string)
    ensures |r| == |s|
    ensures forall i :: 0 <= i < |s| ==> r[i] == (if s[i] == '\n' then ' ' else s[i])
    ensures '\n' !in r
  {
    if s == [] then []
    else [if s[0] == '\n' then ' ' else s[0]] + SpaceNewlines(s[1..])
  }

  /** Applying the rewrite twice changes nothing more. */
  lemma SpaceNewlinesIdempotent(s: string)
    ensures SpaceNewlines(SpaceNewlines(s)) == SpaceNewlines(s)
  {
    var r := SpaceNewlines(s);
    assert forall i :: 0 <= i < |r| ==> r[i] != '\n';
  }
}
