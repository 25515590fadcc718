/** Growing regions of the buffer: the path-character window around a click
    (`expand_path` and the click preparation of `_handle_click_point`), and
    growing a region that matches a filesystem name to the right over a suffix
    (`_expand_right`) or to the left over its parent directories (`_expand_left`). */
module Regions {
  import opened PathText
  import opened PosixPath

  /** `sublime.Region`: offsets `b` and `e` into the buffer. */
  datatype Region = Region(b: int, e: int) {
    /** `Region.size()`, the distance between the two offsets. */
    function Size(): nat {
      if b <= e then e - b else b - e
    }

    predicate Within(buf: string) {
      0 <= b <= e <= |buf|
    }
  }

  // ---------------------------------------------------------------------------
  // expand_path

  /** Where the run of path characters ending at offset `i` begins. */
  function RunStart(buf: string, i: nat): (b: nat)
    requires i <= |buf|
    ensures b <= i
    ensures forall j :: b <= j < i ==> IsLikelyPathChar(buf[j])
    ensures b == 0 || !IsLikelyPathChar(buf[b - 1])
  {
    if i > 0 && IsLikelyPathChar(buf[i - 1]) then RunStart(buf, i - 1) else i
  }

  /** Where the run of path characters starting at offset `i` ends. */
  function RunEnd(buf: string, i: nat): (e: nat)
    requires i <= |buf|
    ensures i <= e <= |buf|
    ensures forall j :: i <= j < e ==> IsLikelyPathChar(buf[j])
    ensures e == |buf| || !IsLikelyPathChar(buf[e])
    decreases |buf| - i
  {
    if i < |buf| && IsLikelyPathChar(buf[i]) then RunEnd(buf, i + 1) else i
  }

  /** `expand_path`: grow `[begin, end)` over adjacent path characters until a
      non-path character or a buffer boundary stops each side. */
  method ExpandPath(buf: string, begin: nat, end: nat) returns (b: nat, e: nat)
    requires begin <= end <= |buf|
    ensures b <= begin && end <= e <= |buf|
    ensures forall i :: b <= i < begin ==> IsLikelyPathChar(buf[i])
    ensures forall i :: end <= i < e ==> IsLikelyPathChar(buf[i])
    ensures b == 0 || !IsLikelyPathChar(buf[b - 1])
    ensures e == |buf| || !IsLikelyPathChar(buf[e])
    ensures b == RunStart(buf, begin) && e == RunEnd(buf, end)
  {
    b, e := begin, end;
    while b > 0 && IsLikelyPathChar(CharAt(buf, b - 1))
      invariant b <= begin
      invariant RunStart(buf, b) == RunStart(buf, begin)
    {
      b := b - 1;
    }
    while e < |buf| && IsLikelyPathChar(CharAt(buf, e))
      invariant end <= e <= |buf|
      invariant RunEnd(buf, e) == RunEnd(buf, end)
    {
      e := e + 1;
    }
  }

  /** The seed `[sb, se)` the click handler expands for a click at `click`:
      the empty seed at the click when a path character touches it; else, when
      the buffer is not empty, one character wide, to the right of the click
      when the window grown from the character before it is at most one
      character (or there is none), and to the left of it otherwise. */
  ghost predicate ClickSeed(buf: string, click: nat, sb: nat, se: nat)
    requires click <= |buf|
  {
    sb <= click <= se <= sb + 1 && se <= |buf| &&
    (sb < se <==> RunStart(buf, click) == RunEnd(buf, click) && |buf| > 0) &&
    (sb < se ==> (sb == click <==> click < |buf| && (click == 0 || RunStart(buf, click - 1) == click - 1)))
  }

  /** The path window around `click` that the click handler starts from: when
      the click lies between two non-path characters the window is grown from
      the character before it and then from the character after it. The ghost
      results name the seed `[sb, se)` that was finally expanded. */
  method ClickWindow(buf: string, click: nat) returns (begin: nat, end: nat, ghost sb: nat, ghost se: nat)
    requires click <= |buf|
    ensures ClickSeed(buf, click, sb, se)
    ensures begin == RunStart(buf, sb) && end == RunEnd(buf, se)
    ensures begin <= click <= end
  {
    begin, end := ExpandPath(buf, click, click);
    sb, se := click, click;
    if begin == end {
      if begin != 0 {
        begin, end := ExpandPath(buf, begin - 1, begin);
        sb, se := click - 1, click;
      }
      if end < |buf| && end - begin < 2 {
        begin, end := ExpandPath(buf, end, end + 1);
        sb, se := click, click + 1;
      }
    }
  }

  /** The click preparation at the start of `_handle_click_point`: the window
      of `ClickWindow` with trailing `/` and `.` removed; `None` when nothing is
      left. The ghost results `[wb, we)` name the window before stripping, and
      `[sb, se)` the seed it was grown from. */
  method ClickRegion(buf: string, click: nat) returns (r: Option<Region>, ghost wb: nat, ghost we: nat,
                                                       ghost sb: nat, ghost se: nat)
    requires click <= |buf|
    ensures ClickSeed(buf, click, sb, se) && wb == RunStart(buf, sb) && we == RunEnd(buf, se)
    ensures wb <= click <= we <= |buf|
    ensures r.None? <==> AllSlashOrDot(buf, wb, we)
    ensures r.Some? ==> r.value.Within(buf) && r.value.b == wb && r.value.b < r.value.e <= we
    ensures r.Some? ==> !SlashOrDot(buf[r.value.e - 1]) && AllSlashOrDot(buf, r.value.e, we)
    ensures r.Some? ==> r.value.Within(buf) && r.value.b <= click && r.value.b < r.value.e && !SlashOrDot(buf[r.value.e - 1])
  {
    var begin, end;
    begin, end, sb, se := ClickWindow(buf, click);
    wb, we := begin, end;
    r := StripWindow(buf, begin, end);
  }

  /** `rstrip('/.')` of the window `[begin, end)`, as a region: the window cut
      after its last character that is neither `/` nor `.`; `None` when no
      such character is left. */
  method StripWindow(buf: string, begin: nat, end: nat) returns (r: Option<Region>)
    requires begin <= end <= |buf|
    ensures r.None? <==> AllSlashOrDot(buf, begin, end)
    ensures r.Some? ==> r.value.Within(buf) && r.value.b == begin && begin < r.value.e <= end
    ensures r.Some? ==> !SlashOrDot(buf[r.value.e - 1]) && AllSlashOrDot(buf, r.value.e, end)
  {
    var path := RStripSlashDot(buf[begin..end]);
    var stripped := begin + |path|;
    StripInBuffer(buf, begin, end, path, stripped);
    if stripped == begin {
      r := None;
    } else {
      r := Some(Region(begin, stripped));
    }
  }

  /** Every character in `[b, e)` is a `/` or a `.`. */
  ghost predicate AllSlashOrDot(buf: string, b: int, e: int)
    requires 0 <= b && e <= |buf|
  {
    forall i :: b <= i < e ==> SlashOrDot(buf[i])
  }

  /** `rstrip('/.')` of the text in `[b, e)`, read in buffer offsets. */
  lemma StripInBuffer(buf: string, b: nat, e: nat, p: string, m: int)
    requires b <= e <= |buf| && p == RStripSlashDot(buf[b..e]) && m == b + |p|
    ensures m <= e
    ensures m == b <==> AllSlashOrDot(buf, b, e)
    ensures m != b ==> !SlashOrDot(buf[m - 1])
    ensures AllSlashOrDot(buf, m, e)
  {
    var s := buf[b..e];
    assert forall i :: b <= i < e ==> buf[i] == s[i - b];
    if p != [] {
      assert p[|p| - 1] == s[|p| - 1];
    }
  }

  // ---------------------------------------------------------------------------
  // _expand_right

  /** `_expand_right`: extend `prefix` to the right over `suffix` when the buffer
      text that follows it is exactly `suffix`. */
  function ExpandRight(buf: string, prefix: Region, suffix: string): (r: Option<Region>)
    requires prefix.Within(buf)
    ensures r.Some? <==> prefix.e + |suffix| <= |buf| && buf[prefix.e..prefix.e + |suffix|] == suffix
    ensures r.Some? ==> r.value == Region(prefix.b, prefix.e + |suffix|) && r.value.Within(buf)
    ensures suffix == [] ==> r == Some(prefix)
  {
    var begin := prefix.e;
    var end := begin + |suffix|;
    if suffix == Substr(buf, begin, end) then Some(Region(prefix.b, end)) else None
  }

  // ---------------------------------------------------------------------------
  // _expand_left

  /** The character just before offset `pos` is a `/`. */
  predicate SlashBefore(buf: string, pos: int) {
    1 <= pos <= |buf| && buf[pos - 1] == '/'
  }

  /** The two characters just before offset `pos` are `/.`. */
  predicate DotSlashBefore(buf: string, pos: int) {
    2 <= pos <= |buf| && buf[pos - 2..pos] == "/."
  }

  /** The text just before offset `pos` is `s`. */
  predicate TextBefore(buf: string, pos: int, s: string) {
    |s| <= pos <= |buf| && buf[pos - |s|..pos] == s
  }

  /** Where the walk of `_expand_left` ends, from the state in which `pos` is the
      offset being examined, `dir` the directory still to be matched and `ms`
      the start of the text matched so far. */
  function WalkLeft(buf: string, pos: int, dir: string, ms: nat): (r: nat)
    requires -1 <= pos < ms
    ensures r <= ms
    decreases pos + 1
  {
    if dir == "/" || pos < 0 || CharAt(buf, pos) != '/' then ms
    else if SlashBefore(buf, pos) then WalkLeft(buf, pos - 1, dir, ms)
    else if DotSlashBefore(buf, pos) then WalkLeft(buf, pos - 2, dir, ms)
    else
      var base := Basename(dir);
      if !TextBefore(buf, pos, base) then ms
      else WalkLeft(buf, pos - |base| - 1, Dirname(dir), pos - |base|)
  }

  /** Where `_expand_left` puts the start of `region`. */
  function LeftStart(buf: string, region: Region, dirname: string): nat
    requires region.Within(buf)
  {
    WalkLeft(buf, region.b - 1, dirname, region.b)
  }

  /** `_expand_left`: from a region that matches a basename, walk left over the
      buffer while each `/`-separated component equals the next innermost
      component of `dirname`, skipping `//` and `/./`; the end never moves. */
  method ExpandLeft(buf: string, region: Region, dirname: string) returns (r: Region)
    requires region.Within(buf)
    ensures r == Region(LeftStart(buf, region, dirname), region.e)
    ensures 0 <= r.b <= region.b && r.e == region.e
  {
    var matchStart: nat := region.b;
    var pos := matchStart - 1;
    var dir := dirname;
    ghost var start := LeftStart(buf, region, dirname);
    while dir != "/" && pos >= 0 && CharAt(buf, pos) == '/'
      invariant -1 <= pos < matchStart <= region.b
      invariant WalkLeft(buf, pos, dir, matchStart) == start
      decreases pos
    {
      WalkLeftStep(buf, pos, dir, matchStart);
      if pos >= 1 && CharAt(buf, pos - 1) == '/' {
        pos := pos - 1;
        continue;
      }
      if pos >= 2 && Substr(buf, pos - 2, pos) == "/." {
        pos := pos - 2;
        continue;
      }
      var base := Basename(dir);
      var blen := |base|;
      if pos < blen {
        break;
      }
      if Substr(buf, pos - blen, pos) != base {
        break;
      }
      dir := Dirname(dir);
      matchStart := pos - blen;
      pos := matchStart - 1;
    }
    WalkLeftStep(buf, pos, dir, matchStart);
    r := Region(matchStart, region.e);
  }

  /** The text skipped between the separator that ends a component and the
      component after it: any run of `/` and `./`. */
  ghost predicate IsUnits(u: string)
    decreases |u|
  {
    u == [] || (u[0] == '/' && IsUnits(u[1..])) || (|u| >= 2 && u[..2] == "./" && IsUnits(u[2..]))
  }

  /** A separator as `_expand_left` reads one: `/` followed by `/` and `./` runs. */
  ghost predicate IsSep(s: string) {
    |s| >= 1 && s[0] == '/' && IsUnits(s[1..])
  }

  /** The `k`-th innermost component of directory `d` (the basename is the first). */
  function Comp(d: string, k: nat): string
    requires k >= 1
  {
    Basename(Up(d, k - 1))
  }

  /** `t` spells the `k` innermost components of `d`, outermost first, each
      followed by a separator. */
  ghost predicate Rendered(t: string, d: string, k: nat)
    decreases k
  {
    if k == 0 then t == []
    else
      var c := Comp(d, k);
      |c| <= |t| && t[..|c|] == c &&
      exists j :: |c| < j <= |t| && IsSep(t[|c|..j]) && Rendered(t[j..], d, k - 1)
  }

  /** Prepending a matched component and its separator to a rendering of the
      `k` innermost components renders `k + 1` of them. */
  lemma RenderedPrepend(c: string, sep: string, rest: string, d: string, k: nat)
    requires c == Comp(d, k + 1) && IsSep(sep)
    requires Rendered(rest, d, k)
    ensures Rendered(c + sep + rest, d, k + 1)
  {
    var t := c + sep + rest;
    var j := |c| + |sep|;
    assert t[..|c|] == c;
    assert t[|c|..j] == sep;
    assert t[j..] == rest;
  }

  lemma UnitsGrow(buf: string, p: nat, pos: nat, ms: nat)
    requires p <= pos < ms <= |buf| && IsUnits(buf[pos + 1..ms])
    requires (p == pos && buf[pos] == '/') || (p + 1 == pos && buf[p..pos + 1] == "./")
    ensures IsUnits(buf[p..ms])
  {
    var u := buf[p..ms];
    if p == pos {
      assert u[1..] == buf[pos + 1..ms];
    } else {
      assert u[..2] == "./";
      assert u[2..] == buf[pos + 1..ms];
    }
  }

  /** The walk of `_expand_left` from a consistent state: `buf[ms..ms0]` spells
      the `k` innermost components of `d0`, `dir` is what is left of `d0`, and
      the text skipped since the last match is a run of `/` and `./`. */
  ghost predicate WalkState(buf: string, pos: int, dir: string, ms: nat, d0: string, ms0: nat, k: nat) {
    -1 <= pos < ms <= ms0 <= |buf| && dir == Up(d0, k) &&
    Rendered(buf[ms..ms0], d0, k) && IsUnits(buf[pos + 1..ms])
  }

  lemma {:induction false} WalkLeftRenders(buf: string, pos: int, dir: string, ms: nat, d0: string, ms0: nat, k: nat)
    returns (n: nat)
    requires WalkState(buf, pos, dir, ms, d0, ms0, k)
    ensures Rendered(buf[WalkLeft(buf, pos, dir, ms)..ms0], d0, n)
    decreases pos + 1, 1
  {
    if dir == "/" || pos < 0 || CharAt(buf, pos) != '/' {
      n := RendersStop(buf, pos, dir, ms, d0, ms0, k);
    } else if SlashBefore(buf, pos) {
      n := RendersSkipSlash(buf, pos, dir, ms, d0, ms0, k);
    } else if DotSlashBefore(buf, pos) {
      n := RendersSkipDot(buf, pos, dir, ms, d0, ms0, k);
    } else if !TextBefore(buf, pos, Basename(dir)) {
      n := RendersMismatch(buf, pos, dir, ms, d0, ms0, k);
    } else {
      WalkLeftConsumes(buf, pos, dir, ms);
      ComponentStep(buf, pos, dir, ms, d0, ms0, k);
      n := RendersComponent(buf, pos, dir, ms, d0, ms0, k, pos - |Basename(dir)|, Dirname(dir));
    }
  }

  lemma RendersStop(buf: string, pos: int, dir: string, ms: nat, d0: string, ms0: nat, k: nat)
    returns (n: nat)
    requires WalkState(buf, pos, dir, ms, d0, ms0, k)
    requires dir == "/" || pos < 0 || CharAt(buf, pos) != '/'
    ensures Rendered(buf[WalkLeft(buf, pos, dir, ms)..ms0], d0, n)
  {
    n := k;
  }

  lemma RendersMismatch(buf: string, pos: int, dir: string, ms: nat, d0: string, ms0: nat, k: nat)
    returns (n: nat)
    requires WalkState(buf, pos, dir, ms, d0, ms0, k)
    requires dir != "/" && 0 <= pos && CharAt(buf, pos) == '/'
    requires !SlashBefore(buf, pos) && !DotSlashBefore(buf, pos)
    requires !TextBefore(buf, pos, Basename(dir))
    ensures Rendered(buf[WalkLeft(buf, pos, dir, ms)..ms0], d0, n)
  {
    n := k;
  }

  lemma {:induction false} RendersSkipSlash(buf: string, pos: int, dir: string, ms: nat, d0: string, ms0: nat, k: nat)
    returns (n: nat)
    requires WalkState(buf, pos, dir, ms, d0, ms0, k)
    requires dir != "/" && 0 <= pos && CharAt(buf, pos) == '/'
    requires SlashBefore(buf, pos)
    ensures Rendered(buf[WalkLeft(buf, pos, dir, ms)..ms0], d0, n)
    decreases pos + 1, 0
  {
    UnitsGrow(buf, pos, pos, ms);
    n := WalkLeftRenders(buf, pos - 1, dir, ms, d0, ms0, k);
  }

  lemma {:induction false} RendersSkipDot(buf: string, pos: int, dir: string, ms: nat, d0: string, ms0: nat, k: nat)
    returns (n: nat)
    requires WalkState(buf, pos, dir, ms, d0, ms0, k)
    requires dir != "/" && 0 <= pos && CharAt(buf, pos) == '/'
    requires !SlashBefore(buf, pos) && DotSlashBefore(buf, pos)
    ensures Rendered(buf[WalkLeft(buf, pos, dir, ms)..ms0], d0, n)
    decreases pos + 1, 0
  {
    assert buf[pos - 1..pos + 1] == [buf[pos - 2..pos][1], buf[pos]];
    UnitsGrow(buf, pos - 1, pos, ms);
    n := WalkLeftRenders(buf, pos - 2, dir, ms, d0, ms0, k);
  }

  lemma {:induction false} RendersComponent(buf: string, pos: int, dir: string, ms: nat, d0: string, ms0: nat, k: nat,
                                            ms': nat, up: string)
    returns (n: nat)
    requires 0 <= ms' <= pos
    requires WalkState(buf, ms' - 1, up, ms', d0, ms0, k + 1)
    requires -1 <= pos < ms && WalkLeft(buf, pos, dir, ms) == WalkLeft(buf, ms' - 1, up, ms')
    ensures Rendered(buf[WalkLeft(buf, pos, dir, ms)..ms0], d0, n)
    decreases pos + 1, 0
  {
    n := WalkLeftRenders(buf, ms' - 1, up, ms', d0, ms0, k + 1);
  }

  /** Matching the final component of `dir` leads to a consistent state one
      component further out. */
  lemma ComponentStep(buf: string, pos: int, dir: string, ms: nat, d0: string, ms0: nat, k: nat)
    requires WalkState(buf, pos, dir, ms, d0, ms0, k)
    requires 0 <= pos && buf[pos] == '/'
    requires TextBefore(buf, pos, Basename(dir))
    ensures WalkState(buf, pos - |Basename(dir)| - 1, Dirname(dir), pos - |Basename(dir)|, d0, ms0, k + 1)
  {
    ComponentStepAt(buf, pos, dir, ms, d0, ms0, k, Basename(dir), Dirname(dir));
  }

  /** `ComponentStep` with the component `c` and the folder `up` it leaves named. */
  lemma ComponentStepAt(buf: string, pos: int, dir: string, ms: nat, d0: string, ms0: nat, k: nat, c: string, up: string)
    requires WalkState(buf, pos, dir, ms, d0, ms0, k)
    requires 0 <= pos && buf[pos] == '/'
    requires c == Comp(d0, k + 1) && up == Up(d0, k + 1)
    requires TextBefore(buf, pos, c)
    ensures WalkState(buf, pos - |c| - 1, up, pos - |c|, d0, ms0, k + 1)
  {
    ComponentRendered(buf, pos, ms, ms0, d0, k);
    assert buf[pos - |c|..pos - |c|] == [];
  }

  /** One step of the walk that matches the final component of `dir`. */
  lemma WalkLeftConsumes(buf: string, pos: int, dir: string, ms: nat)
    requires -1 <= pos < ms
    requires dir != "/" && 0 <= pos && CharAt(buf, pos) == '/'
    requires !SlashBefore(buf, pos) && !DotSlashBefore(buf, pos)
    requires TextBefore(buf, pos, Basename(dir))
    ensures WalkLeft(buf, pos, dir, ms) ==
            WalkLeft(buf, pos - |Basename(dir)| - 1, Dirname(dir), pos - |Basename(dir)|)
  {
  }

  /** One step of the walk, phrased as the tests `_expand_left` makes on the buffer. */
  lemma WalkLeftStep(buf: string, pos: int, dir: string, ms: nat)
    requires -1 <= pos < ms
    ensures dir == "/" || pos < 0 || CharAt(buf, pos) != '/' ==> WalkLeft(buf, pos, dir, ms) == ms
    ensures dir != "/" && pos >= 1 && CharAt(buf, pos) == '/' && CharAt(buf, pos - 1) == '/' ==>
              WalkLeft(buf, pos, dir, ms) == WalkLeft(buf, pos - 1, dir, ms)
    ensures dir != "/" && pos >= 2 && CharAt(buf, pos) == '/' && CharAt(buf, pos - 1) != '/' &&
            Substr(buf, pos - 2, pos) == "/." ==>
              WalkLeft(buf, pos, dir, ms) == WalkLeft(buf, pos - 2, dir, ms)
    ensures dir != "/" && pos >= 0 && CharAt(buf, pos) == '/' && !(pos >= 1 && CharAt(buf, pos - 1) == '/') &&
            !(pos >= 2 && Substr(buf, pos - 2, pos) == "/.") ==>
              WalkLeft(buf, pos, dir, ms) ==
                (if pos < |Basename(dir)| || Substr(buf, pos - |Basename(dir)|, pos) != Basename(dir) then ms
                 else WalkLeft(buf, pos - |Basename(dir)| - 1, Dirname(dir), pos - |Basename(dir)|))
  {
    if dir != "/" && pos >= 0 && CharAt(buf, pos) == '/' {
      assert SlashBefore(buf, pos) <==> pos >= 1 && CharAt(buf, pos - 1) == '/';
      if pos >= 2 && pos <= |buf| {
        assert Substr(buf, pos - 2, pos) == buf[pos - 2..pos];
      }
      assert DotSlashBefore(buf, pos) <==> pos >= 2 && Substr(buf, pos - 2, pos) == "/.";
      var base := Basename(dir);
      if pos >= |base| && pos <= |buf| {
        assert Substr(buf, pos - |base|, pos) == buf[pos - |base|..pos];
      }
      assert TextBefore(buf, pos, base) <==> pos >= |base| && Substr(buf, pos - |base|, pos) == base;
    }
  }

  /** A matched component and the separator after it extend the rendering by one. */
  lemma ComponentRendered(buf: string, pos: int, ms: nat, ms0: nat, d0: string, k: nat)
    requires 0 <= pos < ms <= ms0 <= |buf|
    requires Rendered(buf[ms..ms0], d0, k) && IsUnits(buf[pos + 1..ms]) && buf[pos] == '/'
    requires pos >= |Comp(d0, k + 1)| && buf[pos - |Comp(d0, k + 1)|..pos] == Comp(d0, k + 1)
    ensures Rendered(buf[pos - |Comp(d0, k + 1)|..ms0], d0, k + 1)
  {
    var ms' := pos - |Comp(d0, k + 1)|;
    assert buf[pos..ms][1..] == buf[pos + 1..ms];
    SliceJoin(buf, ms', pos, ms, ms0);
    RenderedPrepend(buf[ms'..pos], buf[pos..ms], buf[ms..ms0], d0, k);
  }

  /** Three adjacent slices make up the slice that spans them. */
  lemma SliceJoin(s: string, i: nat, j: nat, k: nat, l: nat)
    requires i <= j <= k <= l <= |s|
    ensures s[i..l] == s[i..j] + s[j..k] + s[k..l]
  {
    assert s[j..l] == s[j..k] + s[k..l];
    assert s[i..l] == s[i..j] + s[j..l];
  }

  /** Everything `_expand_left` adds to the region spells the `n` innermost
      components of `dirname`, in order, each followed by a separator. */
  lemma ExpandLeftSound(buf: string, region: Region, dirname: string) returns (n: nat)
    requires region.Within(buf)
    ensures Rendered(buf[LeftStart(buf, region, dirname)..region.b], dirname, n)
  {
    assert buf[region.b..region.b] == [];
    n := WalkLeftRenders(buf, region.b - 1, dirname, region.b, dirname, region.b, 0);
  }

  /** When the region is preceded by `c/` where `c` is the basename of
      `dirname` (a real component, not `.`), `_expand_left` takes at least `c/`. */
  lemma ExpandLeftTakesParent(buf: string, b: nat, dirname: string)
    requires dirname != "/" && |Basename(dirname)| > 0 && Basename(dirname) != "."
    requires |Basename(dirname)| + 1 <= b <= |buf|
    requires buf[b - 1] == '/' && buf[b - 1 - |Basename(dirname)|..b - 1] == Basename(dirname)
    ensures WalkLeft(buf, b - 1, dirname, b) <= b - 1 - |Basename(dirname)|
  {
    var c := Basename(dirname);
    SplitShape(dirname);
    assert buf[b - 2] == c[|c| - 1];
    if b - 1 >= 2 {
      if |c| >= 2 {
        assert buf[b - 3] == c[|c| - 2];
      } else {
        assert c == [buf[b - 2]];
      }
      assert buf[b - 3..b - 1] != "/.";
    }
  }

  /** The text `_expand_left` matches for the `k` innermost components of
      `dir`: each component followed by `/`, outermost first. */
  function Spelled(dir: string, k: nat): string
    decreases k
  {
    if k == 0 then [] else Spelled(Dirname(dir), k - 1) + Basename(dir) + "/"
  }

  /** The `k` innermost components of `dir` are real names: none is the root,
      empty or `.`. */
  ghost predicate RealComponents(dir: string, k: nat)
    decreases k
  {
    k == 0 ||
    (dir != "/" && Basename(dir) != [] && Basename(dir) != "." && RealComponents(Dirname(dir), k - 1))
  }

  /** Component by component: the text before `ms` ends with the innermost
      real component of `dir` and a `/`, and the `k - 1` after it are found
      the same way before that. */
  ghost predicate ComponentsBefore(buf: string, ms: int, dir: string, k: nat)
    decreases k
  {
    k == 0 ||
    (dir != "/" && Basename(dir) != [] && Basename(dir) != "." && TextBefore(buf, ms, Basename(dir) + "/") &&
     ComponentsBefore(buf, ms - |Basename(dir)| - 1, Dirname(dir), k - 1))
  }

  /** Text that spells `k` real components is read component by component. */
  lemma {:induction false} SpelledComponents(buf: string, ms: int, dir: string, k: nat)
    requires RealComponents(dir, k) && TextBefore(buf, ms, Spelled(dir, k))
    ensures ComponentsBefore(buf, ms, dir, k)
    decreases k, 1
  {
    if k > 0 {
      var c := Basename(dir);
      assert Spelled(dir, k) == Spelled(Dirname(dir), k - 1) + (c + "/");
      SpelledStep(buf, ms, k, c, Dirname(dir));
    }
  }

  /** `SpelledComponents` for the final component `c` and the folder `up` before it. */
  lemma {:induction false} SpelledStep(buf: string, ms: int, k: nat, c: string, up: string)
    requires k > 0 && RealComponents(up, k - 1)
    requires TextBefore(buf, ms, Spelled(up, k - 1) + (c + "/"))
    ensures TextBefore(buf, ms, c + "/") && ComponentsBefore(buf, ms - |c| - 1, up, k - 1)
    decreases k, 0
  {
    TextBeforeSplit(buf, ms, Spelled(up, k - 1), c + "/");
    SpelledComponents(buf, ms - |c| - 1, up, k - 1);
  }

  /** With a component name `c` (not empty, not `.`, without `/`) and a `/`
      just before `ms`, the walk at that `/` neither skips `//` nor `/./` and
      finds `c` before it. */
  lemma ComponentGuards(buf: string, c: string, ms: nat)
    requires c != [] && c != "." && forall j :: 0 <= j < |c| ==> c[j] != '/'
    requires TextBefore(buf, ms, c + "/")
    ensures 0 <= ms - 1 && CharAt(buf, ms - 1) == '/'
    ensures !SlashBefore(buf, ms - 1) && !DotSlashBefore(buf, ms - 1)
    ensures TextBefore(buf, ms - 1, c)
  {
    SliceSplit(buf, ms - |c| - 1, ms, c, "/");
    assert buf[ms - 2] == c[|c| - 1];
    if ms - 1 >= 2 {
      if |c| >= 2 {
        assert buf[ms - 3] == c[|c| - 2];
      } else {
        assert c == [buf[ms - 2]];
      }
      assert buf[ms - 3..ms - 1] != "/.";
    }
  }

  /** One step of the walk: with the innermost component of `dir` and a `/`
      just before `ms`, the walk goes on from before that component with the
      parent directory. */
  lemma WalkLeftComponent(buf: string, dir: string, ms: nat)
    requires dir != "/" && Basename(dir) != [] && Basename(dir) != "."
    requires TextBefore(buf, ms, Basename(dir) + "/")
    ensures WalkLeft(buf, ms - 1, dir, ms) ==
            WalkLeft(buf, (ms - 1) - |Basename(dir)| - 1, Dirname(dir), (ms - 1) - |Basename(dir)|)
  {
    SplitShape(dir);
    ComponentGuards(buf, Basename(dir), ms);
    WalkLeftConsumes(buf, ms - 1, dir, ms);
  }

  /** When the text before `ms` holds the `k` innermost real components of
      `dir`, each followed by `/`, the walk takes all of them. */
  lemma {:induction false} WalkLeftTakesAll(buf: string, dir: string, ms: nat, k: nat)
    requires ComponentsBefore(buf, ms, dir, k)
    ensures WalkLeft(buf, ms - 1, dir, ms) <= ms - |Spelled(dir, k)|
    decreases k, 1
  {
    if k > 0 {
      WalkLeftComponent(buf, dir, ms);
      TakesAllStep(buf, dir, ms, k, (ms - 1) - |Basename(dir)|, Dirname(dir));
    }
  }

  /** The induction step of `WalkLeftTakesAll`, once the walk has passed the
      innermost component and stands at `mid` with the parent `up`. */
  lemma {:induction false} TakesAllStep(buf: string, dir: string, ms: nat, k: nat, mid: nat, up: string)
    requires k > 0 && mid < ms
    requires ComponentsBefore(buf, mid, up, k - 1)
    requires WalkLeft(buf, ms - 1, dir, ms) == WalkLeft(buf, mid - 1, up, mid)
    requires mid - |Spelled(up, k - 1)| == ms - |Spelled(dir, k)|
    ensures WalkLeft(buf, ms - 1, dir, ms) <= ms - |Spelled(dir, k)|
    decreases k, 0
  {
    WalkLeftTakesAll(buf, up, mid, k - 1);
  }

  /** Text `x + y` before `ms` is `y` before `ms` after `x`. */
  lemma TextBeforeSplit(buf: string, ms: int, x: string, y: string)
    requires TextBefore(buf, ms, x + y)
    ensures TextBefore(buf, ms, y) && TextBefore(buf, ms - |y|, x)
  {
    SliceSplit(buf, ms - |x + y|, ms, x, y);
  }

  /** A slice that reads `x + y` reads `x` and then `y`. */
  lemma SliceSplit(buf: string, lo: int, hi: int, x: string, y: string)
    requires 0 <= lo <= hi <= |buf| && buf[lo..hi] == x + y
    ensures lo + |x| <= hi && buf[lo..lo + |x|] == x && buf[lo + |x|..hi] == y
  {
    assert buf[lo..lo + |x|] == (x + y)[..|x|];
    assert buf[lo + |x|..hi] == (x + y)[|x|..];
  }

  /** `_expand_left` takes every component it can: when the text before the
      region spells the `k` innermost real components of `dirname`, each
      followed by `/`, the expanded region starts at or before that text. */
  lemma ExpandLeftTakesComponents(buf: string, region: Region, dirname: string, k: nat)
    requires region.Within(buf) && RealComponents(dirname, k)
    requires TextBefore(buf, region.b, Spelled(dirname, k))
    ensures LeftStart(buf, region, dirname) <= region.b - |Spelled(dirname, k)|
  {
    SpelledComponents(buf, region.b, dirname, k);
    WalkLeftTakesAll(buf, dirname, region.b, k);
  }

  /** When the region is not preceded by `/`, `_expand_left` leaves it as it is. */
  lemma ExpandLeftNeedsSeparator(buf: string, b: nat, dirname: string)
    requires b <= |buf| && (b == 0 || buf[b - 1] != '/')
    ensures WalkLeft(buf, b - 1, dirname, b) == b
  {
  }

  /** The same through `/./`: when the region is preceded by `c/./`, where `c`
      is the basename of `dirname`, `_expand_left` takes at least `c/./`. */
  lemma ExpandLeftSkipsDot(buf: string, b: nat, dirname: string)
    requires dirname != "/" && |Basename(dirname)| > 0 && Basename(dirname) != "."
    requires |Basename(dirname)| + 3 <= b <= |buf|
    requires buf[b - 3..b] == "/./" && buf[b - 3 - |Basename(dirname)|..b - 3] == Basename(dirname)
    ensures WalkLeft(buf, b - 1, dirname, b) <= b - 3 - |Basename(dirname)|
  {
    var c := Basename(dirname);
    SplitShape(dirname);
    assert buf[b - 1] == '/' && buf[b - 2] == '.' && buf[b - 3] == '/';
    assert DotSlashBefore(buf, b - 1) by {
      assert buf[b - 3..b - 1] == "/.";
    }
    assert buf[b - 4] == c[|c| - 1];
    if b - 3 >= 2 {
      if |c| >= 2 {
        assert buf[b - 5] == c[|c| - 2];
      } else {
        assert c == [buf[b - 4]];
      }
      assert buf[b - 5..b - 3] != "/.";
    }
    assert TextBefore(buf, b - 3, c);
  }
}
