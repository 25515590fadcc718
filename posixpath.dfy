/** The POSIX path operations the engine relies on (`os.path.split`,
    `dirname`, `basename`, `join` with separator `/`), written out as the
    POSIX implementation of the Python library defines them. */
module PosixPath {

  /** The index just after the last `/` of `p`, or 0 when it has none. */
  function AfterLastSep(p: string): (i: nat)
    ensures i <= |p|
    ensures i > 0 ==> p[i - 1] == '/'
    ensures forall j :: i <= j < |p| ==> p[j] != '/'
  {
    if p == [] then 0 else if p[|p| - 1] == '/' then |p| else AfterLastSep(p[..|p| - 1])
  }

  predicate AllSep(s: string) {
    forall i :: 0 <= i < |s| ==> s[i] == '/'
  }

  /** `s.rstrip('/')`. */
  function RStripSep(s: string): (r: string)
    ensures |r| <= |s| && r == s[..|r|]
    ensures r == [] || r[|r| - 1] != '/'
  {
    if s != [] && s[|s| - 1] == '/' then RStripSep(s[..|s| - 1]) else s
  }

  /** `os.path.split(p)`: the directory part (trailing separators removed unless
      it is all separators) and the final component. */
  function Split(p: string): (string, string) {
    var i := AfterLastSep(p);
    var head := p[..i];
    (if head != [] && !AllSep(head) then RStripSep(head) else head, p[i..])
  }

  function Dirname(p: string): string {
    Split(p).0
  }

  function Basename(p: string): string {
    Split(p).1
  }

  /** The directory part is a prefix of the path, strictly shorter unless the
      path is its own directory part (as `/` and `` are); the final component is
      the tail of the path and holds no separator. */
  lemma SplitShape(p: string)
    ensures Dirname(p) == p[..|Dirname(p)|]
    ensures Dirname(p) != p ==> |Dirname(p)| < |p|
    ensures Basename(p) == p[|p| - |Basename(p)|..]
    ensures forall j :: 0 <= j < |Basename(p)| ==> Basename(p)[j] != '/'
  {
    var i := AfterLastSep(p);
    var head := p[..i];
    if head != [] && !AllSep(head) {
      var h := RStripSep(head);
      assert h == p[..|h|];
    }
  }

  /** `os.path.join(a, b)`. */
  function Join(a: string, b: string): string {
    if |b| > 0 && b[0] == '/' then b
    else if a == [] || a[|a| - 1] == '/' then a + b
    else a + "/" + b
  }

  /** `Up(p, k)`: `p` with `dirname` applied `k` times. */
  function Up(p: string, k: nat): string {
    if k == 0 then p else Dirname(Up(p, k - 1))
  }

  /** Every `Up(p, k)` is a prefix of `p`. */
  lemma {:induction false} UpIsPrefix(p: string, k: nat)
    ensures |Up(p, k)| <= |p| && Up(p, k) == p[..|Up(p, k)|]
  {
    if k > 0 {
      UpIsPrefix(p, k - 1);
      SplitShape(Up(p, k - 1));
    }
  }
}
