/** Character classification and buffer reads shared by the path-inference engine
    (gidopen.py). A text buffer is a `string`; reads follow the editor's rules:
    a single-character read outside the buffer yields NUL, a range read is clipped
    to the buffer. */
module PathText {

  datatype Option<T> = None | Some(value: T)

  /** What a single-character read returns outside the buffer. */
  const Nul: char := '\0'

  /** Characters that are more commonly next to paths than inside them. */
  const Excluded: set<char> :=
    {'<', '>', '&', '|', '\'', '"', ',', ';', ':', '[', ']', '(', ')', '*', '?', '`', '=', '#', '!'}

  /** `is_likely_path_char`: not a control character or space, and not excluded. */
  predicate IsLikelyPathChar(c: char) {
    c as int > 32 && c !in Excluded
  }

  /** The policy decisions the source comments on: `=`, `#` and the brackets end
      a path, `$`, `{`, `}` and `%` stay inside one, and the NUL sentinel is never a
      path character. */
  lemma PathCharPolicy()
    ensures !IsLikelyPathChar('=') && !IsLikelyPathChar('#') && !IsLikelyPathChar('(')
    ensures !IsLikelyPathChar(' ') && !IsLikelyPathChar(Nul) && !IsLikelyPathChar(':')
    ensures IsLikelyPathChar('$') && IsLikelyPathChar('{') && IsLikelyPathChar('}')
    ensures IsLikelyPathChar('%') && IsLikelyPathChar('/') && IsLikelyPathChar('.')
  {
  }

  predicate IsDigit(c: char) {
    '0' <= c <= '9'
  }

  /** A single-character read, `view.substr(i)`. */
  function CharAt(buf: string, i: int): char {
    if 0 <= i < |buf| then buf[i] else Nul
  }

  function Clip(i: int, n: nat): (r: nat)
    ensures r <= n
  {
    if i < 0 then 0 else if i > n then n else i
  }

  /** A range read, `view.substr(Region(a, b))`: the text between the two
      offsets, each clipped to the buffer. */
  function Substr(buf: string, a: int, b: int): (r: string)
    ensures 0 <= a <= b <= |buf| ==> r == buf[a..b]
    ensures |r| <= if a <= b then b - a else a - b
  {
    var lo := Clip(if a <= b then a else b, |buf|);
    var hi := Clip(if a <= b then b else a, |buf|);
    buf[lo..hi]
  }

  /** A clipped read has the requested length only when it lies in the buffer. */
  lemma SubstrFull(buf: string, a: int, b: int)
    requires a < b && |Substr(buf, a, b)| == b - a
    ensures 0 <= a && b <= |buf| && Substr(buf, a, b) == buf[a..b]
  {
  }

  /** `pat` occurs in `s` starting at index `i`. */
  predicate OccursAt(pat: string, s: string, i: int) {
    0 <= i && i + |pat| <= |s| && s[i..i + |pat|] == pat
  }

  /** `s.find(pat, from)`: the first occurrence at or after `from`, or -1. */
  function FindFrom(pat: string, s: string, from: nat): (r: int)
    ensures r == -1 || (from <= r && OccursAt(pat, s, r))
    ensures forall i :: from <= i && (r == -1 || i < r) ==> !OccursAt(pat, s, i)
    decreases |s| - from
  {
    if from + |pat| > |s| then -1
    else if s[from..from + |pat|] == pat then from
    else FindFrom(pat, s, from + 1)
  }

  /** The indices `find_all` yields once the search has reached `from`: the
      chain of `s.find(pat, i + 1)` calls. */
  function Occurrences(pat: string, s: string, from: nat): seq<nat>
    decreases |s| + 1 - from
  {
    var i := FindFrom(pat, s, from);
    if i == -1 then [] else [i as nat] + Occurrences(pat, s, i + 1)
  }

  /** The occurrences from `from` on are exactly the start indices of `pat` at
      or after `from`, in strictly increasing order. */
  lemma {:induction false} OccurrencesExact(pat: string, s: string, from: nat)
    ensures forall k, l :: 0 <= k < l < |Occurrences(pat, s, from)| ==>
      Occurrences(pat, s, from)[k] < Occurrences(pat, s, from)[l]
    ensures forall i: nat :: i in Occurrences(pat, s, from) <==> from <= i && OccursAt(pat, s, i)
    decreases |s| + 1 - from
  {
    var i := FindFrom(pat, s, from);
    if i != -1 {
      OccurrencesExact(pat, s, i + 1);
      var rest := Occurrences(pat, s, i + 1);
      assert Occurrences(pat, s, from) == [i as nat] + rest;
      assert forall k :: 0 <= k < |rest| ==> i < rest[k] by {
        forall k | 0 <= k < |rest|
          ensures i < rest[k]
        {
          assert rest[k] in rest;
        }
      }
    }
  }

  /** `find_all`: every start index of `pat` in `s`, overlapping ones included,
      in strictly increasing order. */
  method FindAll(pat: string, s: string) returns (r: seq<nat>)
    ensures r == Occurrences(pat, s, 0)
    ensures forall k, l :: 0 <= k < l < |r| ==> r[k] < r[l]
    ensures forall i: nat :: i in r <==> OccursAt(pat, s, i)
  {
    r := [];
    var i := FindFrom(pat, s, 0);
    while i != -1
      invariant i == -1 || OccursAt(pat, s, i)
      invariant r + Pending(pat, s, i) == Occurrences(pat, s, 0)
      decreases if i == -1 then 0 else |s| + 1 - i
    {
      PendingStep(pat, s, i, r);
      r := r + [i as nat];
      i := FindFrom(pat, s, i + 1);
    }
    assert r + [] == r;
    AllOccurrences(pat, s, r);
  }

  /** The indices still to come when the last `find` returned `i`. */
  function Pending(pat: string, s: string, i: int): seq<nat>
    requires -1 <= i
  {
    if i == -1 then [] else [i as nat] + Occurrences(pat, s, i + 1)
  }

  /** Yielding the index `i` leaves the ones after it pending. */
  lemma PendingStep(pat: string, s: string, i: nat, r: seq<nat>)
    requires r + Pending(pat, s, i) == Occurrences(pat, s, 0)
    ensures (r + [i]) + Pending(pat, s, FindFrom(pat, s, i + 1)) == Occurrences(pat, s, 0)
  {
    var rest := Pending(pat, s, FindFrom(pat, s, i + 1));
    assert Pending(pat, s, i) == [i] + rest;
    assert (r + [i]) + rest == r + ([i] + rest);
  }

  /** The whole chain of `find` calls yields every start index, in order. */
  lemma AllOccurrences(pat: string, s: string, r: seq<nat>)
    requires r == Occurrences(pat, s, 0)
    ensures forall k, l :: 0 <= k < l < |r| ==> r[k] < r[l]
    ensures forall i: nat :: i in r <==> OccursAt(pat, s, i)
  {
    OccurrencesExact(pat, s, 0);
  }

  predicate SlashOrDot(c: char) {
    c == '/' || c == '.'
  }

  /** `s.rstrip('/.')`: drop every trailing `/` and `.`. */
  function RStripSlashDot(s: string): (r: string)
    ensures |r| <= |s| && r == s[..|r|]
    ensures r == [] || !SlashOrDot(r[|r| - 1])
    ensures forall i :: |r| <= i < |s| ==> SlashOrDot(s[i])
  {
    if s != [] && SlashOrDot(s[|s| - 1]) then RStripSlashDot(s[..|s| - 1]) else s
  }
}
