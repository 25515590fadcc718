/** The base folders of the path-inference engine (gidopen.py): the ancestor
    test `is_in`, the pruned list of window folders with their unique-basename
    labels, the working-directory fallback chain, the order in which base folders
    are tried, and the display form of a path (`_shorten_name`). */
module Folders {
  import opened PathText
  import opened PosixPath

  /** `is_in(d, a)`: `d` lies strictly below `a`, that is `d` starts with `a`
      followed by a separator. The source asserts that the two differ. */
  predicate IsIn(d: string, a: string)
    requires d != a
  {
    |a| <= |d| && d[..|a|] == a && (assert |a| < |d|; d[|a|] == '/')
  }

  /** `name == folder or is_in(name, folder)`, the test the source repeats. */
  predicate Covers(x: string, f: string) {
    x == f || IsIn(x, f)
  }

  /** `is_in` is transitive. */
  lemma IsInTransitive(x: string, y: string, z: string)
    requires x != y && y != z && IsIn(x, y) && IsIn(y, z)
    ensures x != z && IsIn(x, z)
  {
    assert x[..|y|][..|z|] == x[..|z|];
    assert x[|z|] == x[..|y|][|z|];
  }

  /** Covering is transitive. */
  lemma CoversTransitive(x: string, y: string, z: string)
    requires Covers(x, y) && Covers(y, z)
    ensures Covers(x, z)
  {
    if x != y && y != z {
      IsInTransitive(x, y, z);
    }
  }

  /** Two different folders that both cover a name are nested in one another. */
  lemma CoversChain(x: string, a: string, b: string)
    requires Covers(x, a) && Covers(x, b) && a != b
    ensures IsIn(a, b) || IsIn(b, a)
  {
    if |a| < |b| {
      assert b[..|a|] == x[..|b|][..|a|] == x[..|a|];
      if x == b {
        assert b[|a|] == x[|a|];
      } else {
        assert b[|a|] == x[..|b|][|a|];
      }
    } else if |b| < |a| {
      assert a[..|b|] == x[..|a|][..|b|] == x[..|b|];
      if x == a {
        assert a[|b|] == x[|b|];
      } else {
        assert a[|b|] == x[..|a|][|b|];
      }
    }
  }

  /** A relative name joined under a folder lies in that folder. */
  lemma JoinIsIn(folder: string, name: string)
    requires folder != [] && folder[|folder| - 1] != '/'
    requires name != [] && name[0] != '/'
    ensures Join(folder, name) != folder && IsIn(Join(folder, name), folder)
  {
    var j := Join(folder, name);
    assert j == folder + "/" + name;
    assert j[..|folder|] == folder;
    assert j[|folder|] == '/';
  }

  /** Nothing but `//...` lies in `/`: the separator after the ancestor is
      demanded even when the ancestor already ends with one. */
  lemma RootHoldsNothing(d: string)
    requires d != "/" && (|d| < 2 || d[1] != '/')
    ensures !IsIn(d, "/")
  {
  }

  // ---------------------------------------------------------------------
  // Pruning the window folders

  /** Some folder of `fs` covers `x`. */
  predicate CoveredBy(x: string, fs: seq<string>) {
    exists j :: 0 <= j < |fs| && Covers(x, fs[j])
  }

  /** A folder of `fs` other than `x` itself is a proper ancestor of `x`. */
  predicate HasAncestorIn(x: string, fs: seq<string>) {
    exists j :: 0 <= j < |fs| && fs[j] != x && IsIn(x, fs[j])
  }

  /** The folders kept after the first `k` window folders: a folder is dropped
      when a kept folder covers it or when a later window folder is its
      ancestor. */
  function Kept(ws: seq<string>, k: nat): seq<string>
    requires k <= |ws|
  {
    if k == 0 then []
    else
      var prev := Kept(ws, k - 1);
      var f := ws[k - 1];
      if CoveredBy(f, prev) || HasAncestorIn(f, ws[k..]) then prev else prev + [f]
  }

  /** The project folders: every window folder not below another one, once. */
  function Prune(ws: seq<string>): seq<string> {
    Kept(ws, |ws|)
  }

  /** No two entries are equal and none lies in another. */
  predicate Pruned(fs: seq<string>) {
    forall i, j :: 0 <= i < |fs| && 0 <= j < |fs| && i != j ==>
      fs[i] != fs[j] && !IsIn(fs[i], fs[j])
  }

  /** No window folder from position `k` on is a proper ancestor of `g`. */
  predicate NoAncestorFrom(ws: seq<string>, k: nat, g: string) {
    forall j :: k <= j < |ws| && ws[j] != g ==> !IsIn(g, ws[j])
  }

  /** What `Kept` maintains: a pruned list of window folders none of which has
      an ancestor among the folders still to come. */
  predicate KeptState(ws: seq<string>, k: nat, fs: seq<string>) {
    Pruned(fs) &&
    (forall i :: 0 <= i < |fs| ==> fs[i] in ws && NoAncestorFrom(ws, k, fs[i]))
  }

  lemma KeptSkip(ws: seq<string>, k: nat, fs: seq<string>)
    requires k < |ws| && KeptState(ws, k, fs)
    ensures KeptState(ws, k + 1, fs)
  {
  }

  lemma KeptAdd(ws: seq<string>, k: nat, fs: seq<string>)
    requires k < |ws| && KeptState(ws, k, fs)
    requires !CoveredBy(ws[k], fs) && !HasAncestorIn(ws[k], ws[k + 1..])
    ensures KeptState(ws, k + 1, fs + [ws[k]])
  {
    var f := ws[k];
    var gs := fs + [f];
    forall j | k + 1 <= j < |ws| && ws[j] != f
      ensures !IsIn(f, ws[j])
    {
      assert ws[k + 1..][j - k - 1] == ws[j];
    }
    forall i | 0 <= i < |fs|
      ensures fs[i] != f && !IsIn(f, fs[i]) && !IsIn(fs[i], f)
    {
      assert !Covers(f, fs[i]);
      assert NoAncestorFrom(ws, k, fs[i]);
    }
    assert forall i :: 0 <= i < |fs| ==> gs[i] == fs[i];
  }

  /** `Kept` always yields a pruned list of window folders. */
  lemma {:induction false} KeptInvariant(ws: seq<string>, k: nat)
    requires k <= |ws|
    ensures KeptState(ws, k, Kept(ws, k))
  {
    if k > 0 {
      KeptInvariant(ws, k - 1);
      var prev := Kept(ws, k - 1);
      if CoveredBy(ws[k - 1], prev) || HasAncestorIn(ws[k - 1], ws[k..]) {
        KeptSkip(ws, k - 1, prev);
      } else {
        KeptAdd(ws, k - 1, prev);
      }
    }
  }

  /** The kept list only grows. */
  lemma {:induction false} KeptGrows(ws: seq<string>, k: nat, n: nat)
    requires k <= n <= |ws|
    ensures |Kept(ws, k)| <= |Kept(ws, n)| && Kept(ws, n)[..|Kept(ws, k)|] == Kept(ws, k)
    decreases n - k
  {
    if k < n {
      KeptGrows(ws, k + 1, n);
      var a := Kept(ws, k);
      var b := Kept(ws, k + 1);
      assert b[..|a|] == a;
      assert Kept(ws, n)[..|b|][..|a|] == Kept(ws, n)[..|a|];
    }
  }

  /** Window folder `k` is covered by a project folder. */
  lemma {:induction false} PruneCoversFrom(ws: seq<string>, k: nat)
    requires k < |ws|
    ensures CoveredBy(ws[k], Prune(ws))
    decreases |ws| - k
  {
    var p := Prune(ws);
    var f := ws[k];
    var prev := Kept(ws, k);
    if CoveredBy(f, prev) {
      var i :| 0 <= i < |prev| && Covers(f, prev[i]);
      KeptGrows(ws, k, |ws|);
      assert p[i] == prev[i];
    } else if HasAncestorIn(f, ws[k + 1..]) {
      var j :| 0 <= j < |ws[k + 1..]| && ws[k + 1..][j] != f && IsIn(f, ws[k + 1..][j]);
      var g := ws[k + 1 + j];
      assert g == ws[k + 1..][j];
      PruneCoversFrom(ws, k + 1 + j);
      var i :| 0 <= i < |p| && Covers(g, p[i]);
      CoversTransitive(f, g, p[i]);
    } else {
      assert Kept(ws, k + 1) == prev + [f];
      KeptGrows(ws, k + 1, |ws|);
      assert p[|prev|] == Kept(ws, k + 1)[|prev|];
    }
  }

  /** The properties of the project folders: they are window folders, no two
      are equal or nested, and every window folder is one of them or lies in
      one. */
  lemma PruneProperties(ws: seq<string>)
    ensures Pruned(Prune(ws))
    ensures forall i :: 0 <= i < |Prune(ws)| ==> Prune(ws)[i] in ws
    ensures forall k :: 0 <= k < |ws| ==> CoveredBy(ws[k], Prune(ws))
  {
    KeptInvariant(ws, |ws|);
    forall k | 0 <= k < |ws|
      ensures CoveredBy(ws[k], Prune(ws))
    {
      PruneCoversFrom(ws, k);
    }
  }

  /** At most one project folder covers any name. */
  lemma PrunedCoverUnique(fs: seq<string>, x: string, i: nat, j: nat)
    requires Pruned(fs) && i < |fs| && j < |fs|
    requires Covers(x, fs[i]) && Covers(x, fs[j])
    ensures i == j
  {
    if i != j {
      CoversChain(x, fs[i], fs[j]);
    }
  }

  // ---------------------------------------------------------------------
  // The pruning loop as the source writes it

  /** `any(is_in(folder, f) for f in later)` as written: `is_in` asserts that
      its arguments differ, so a later folder equal to `x` reached before any
      ancestor raises (`None`). */
  function LaterAncestorAsWritten(x: string, later: seq<string>): Option<bool> {
    if later == [] then Some(false)
    else if later[0] == x then None
    else if IsIn(x, later[0]) then Some(true)
    else LaterAncestorAsWritten(x, later[1..])
  }

  /** The pruning loop as written; `None` when it raises. */
  function KeptAsWritten(ws: seq<string>, k: nat): Option<seq<string>>
    requires k <= |ws|
  {
    if k == 0 then Some([])
    else
      match KeptAsWritten(ws, k - 1)
      case None => None
      case Some(prev) =>
        var f := ws[k - 1];
        if CoveredBy(f, prev) then Some(prev)
        else
          match LaterAncestorAsWritten(f, ws[k..])
          case None => None
          case Some(later) => if later then Some(prev) else Some(prev + [f])
  }

  function PruneAsWritten(ws: seq<string>): Option<seq<string>> {
    KeptAsWritten(ws, |ws|)
  }

  /** When it does not raise, the written test agrees with `HasAncestorIn`; it
      never raises when `x` does not recur. */
  lemma {:induction false} LaterAncestorAsWrittenAgrees(x: string, later: seq<string>)
    ensures LaterAncestorAsWritten(x, later).Some? ==>
      LaterAncestorAsWritten(x, later).value == HasAncestorIn(x, later)
    ensures (forall j :: 0 <= j < |later| ==> later[j] != x) ==>
      LaterAncestorAsWritten(x, later).Some?
  {
    if later != [] && later[0] != x && !IsIn(x, later[0]) {
      LaterAncestorAsWrittenAgrees(x, later[1..]);
      if HasAncestorIn(x, later) {
        var j :| 0 <= j < |later| && later[j] != x && IsIn(x, later[j]);
        assert later[1..][j - 1] == later[j];
      }
      if HasAncestorIn(x, later[1..]) {
        var j :| 0 <= j < |later[1..]| && later[1..][j] != x && IsIn(x, later[1..][j]);
        assert later[j + 1] == later[1..][j];
      }
    }
  }

  /** No folder occurs twice. */
  predicate Distinct(ws: seq<string>) {
    forall i, j :: 0 <= i < j < |ws| ==> ws[i] != ws[j]
  }

  /** The loop as written computes the corrected result whenever it does not
      raise, and it does not raise on distinct window folders. */
  lemma {:induction false} KeptAsWrittenAgrees(ws: seq<string>, k: nat)
    requires k <= |ws|
    ensures KeptAsWritten(ws, k).Some? ==> KeptAsWritten(ws, k).value == Kept(ws, k)
    ensures Distinct(ws) ==> KeptAsWritten(ws, k).Some?
  {
    if k > 0 {
      KeptAsWrittenAgrees(ws, k - 1);
      LaterAncestorAsWrittenAgrees(ws[k - 1], ws[k..]);
    }
  }

  /** The written loop raises on a window that lists one folder twice, where
      the corrected loop keeps that folder once. */
  lemma DuplicateFolderRaises()
    ensures PruneAsWritten(["/w", "/w"]).None?
    ensures Prune(["/w", "/w"]) == ["/w"]
  {
    var ws := ["/w", "/w"];
    assert ws[1..] == ["/w"];
    assert ws[2..] == [];
    assert LaterAncestorAsWritten("/w", ws[1..]).None?;
    assert !CoveredBy("/w", []);
    assert !HasAncestorIn("/w", ws[1..]);
    assert Kept(ws, 1) == ["/w"];
    assert CoveredBy("/w", ["/w"]);
  }

  lemma PruneAsWrittenAgrees(ws: seq<string>)
    ensures PruneAsWritten(ws).Some? ==> PruneAsWritten(ws).value == Prune(ws)
    ensures Distinct(ws) ==> PruneAsWritten(ws) == Some(Prune(ws))
  {
    KeptAsWrittenAgrees(ws, |ws|);
  }

  // ---------------------------------------------------------------------
  // Labels

  /** How many of the window folders have basename `b`. */
  function BasenameCount(ws: seq<string>, b: string): nat {
    if ws == [] then 0
    else BasenameCount(ws[..|ws| - 1], b) + (if Basename(ws[|ws| - 1]) == b then 1 else 0)
  }

  /** A read of the `defaultdict(int)` of basename counts. */
  function Tally(count: map<string, nat>, b: string): nat {
    if b in count then count[b] else 0
  }

  lemma {:induction false} BasenameCountPositive(ws: seq<string>, i: nat)
    requires i < |ws|
    ensures BasenameCount(ws, Basename(ws[i])) >= 1
  {
    if i < |ws| - 1 {
      BasenameCountPositive(ws[..|ws| - 1], i);
    }
  }

  lemma {:induction false} BasenameCountTwo(ws: seq<string>, i: nat, j: nat)
    requires i < j < |ws| && Basename(ws[i]) == Basename(ws[j])
    ensures BasenameCount(ws, Basename(ws[i])) >= 2
  {
    var init := ws[..|ws| - 1];
    if j == |ws| - 1 {
      BasenameCountPositive(init, i);
    } else {
      BasenameCountTwo(init, i, j);
    }
  }

  /** A basename that occurs once among the window folders names one of them:
      so no two labels are equal. */
  lemma UniqueBasenameIdentifies(ws: seq<string>, f: string, g: string)
    requires f in ws && g in ws && Basename(f) == Basename(g)
    requires BasenameCount(ws, Basename(f)) == 1
    ensures f == g
  {
    if f != g {
      var i :| 0 <= i < |ws| && ws[i] == f;
      var j :| 0 <= j < |ws| && ws[j] == g;
      if i < j {
        BasenameCountTwo(ws, i, j);
      } else {
        BasenameCountTwo(ws, j, i);
      }
    }
  }

  /** `count` holds the basename counts of the folders `fs`. */
  ghost predicate Counts(count: map<string, nat>, fs: seq<string>) {
    forall b :: Tally(count, b) == BasenameCount(fs, b)
  }

  /** Counting one more window folder. */
  lemma TallyStep(ws: seq<string>, k: nat, count: map<string, nat>)
    requires k < |ws| && Counts(count, ws[..k])
    ensures Counts(count[Basename(ws[k]) := Tally(count, Basename(ws[k])) + 1], ws[..k + 1])
  {
    var next := count[Basename(ws[k]) := Tally(count, Basename(ws[k])) + 1];
    assert ws[..k + 1][..k] == ws[..k];
    forall b
      ensures Tally(next, b) == BasenameCount(ws[..k + 1], b)
    {
      assert Tally(count, b) == BasenameCount(ws[..k], b);
    }
  }

  /** The folder loop of `_setup_folders`: prunes the window folders while
      counting basenames over all of them, then labels every kept folder whose
      basename is unique. A later copy of the folder itself is not taken for an
      ancestor (see `PruneAsWritten`). */
  method ScanFolders(ws: seq<string>) returns (folders: seq<string>, labels: map<string, string>)
    ensures folders == Prune(ws)
    ensures forall f :: f in labels <==> f in folders && BasenameCount(ws, Basename(f)) == 1
    ensures forall f :: f in labels ==> labels[f] == Basename(f)
  {
    folders := [];
    var count: map<string, nat> := map[];
    var after := 0;
    while after < |ws|
      invariant after <= |ws|
      invariant folders == Kept(ws, after)
      invariant Counts(count, ws[..after])
    {
      var folder := ws[after];
      var basename := Basename(folder);
      TallyStep(ws, after, count);
      count := count[basename := Tally(count, basename) + 1];
      after := after + 1;
      if CoveredBy(folder, folders) {
      } else if HasAncestorIn(folder, ws[after..]) {
      } else {
        folders := folders + [folder];
      }
    }
    assert ws[..after] == ws;
    labels := LabelFolders(ws, folders, count);
  }

  /** The labelling loop of `_setup_folders`, given the basename counts over all
      window folders. */
  method LabelFolders(ws: seq<string>, folders: seq<string>, count: map<string, nat>)
    returns (labels: map<string, string>)
    requires Counts(count, ws)
    ensures forall f :: f in labels <==> f in folders && BasenameCount(ws, Basename(f)) == 1
    ensures forall f :: f in labels ==> labels[f] == Basename(f)
  {
    labels := map[];
    for i := 0 to |folders|
      invariant forall f :: f in labels <==> f in folders[..i] && BasenameCount(ws, Basename(f)) == 1
      invariant forall f :: f in labels ==> labels[f] == Basename(f)
    {
      var basename := Basename(folders[i]);
      if Tally(count, basename) == 1 {
        labels := labels[folders[i] := basename];
      }
      assert folders[..i + 1] == folders[..i] + [folders[i]];
    }
    assert folders[..|folders|] == folders;
  }

  // ---------------------------------------------------------------------
  // The working directory

  /** What `_setup_folders` reads from the editor and the operating system. */
  datatype Host = Host(
    windowFolders: seq<string>,  // `window.folders()`
    pwdSetting: Option<string>,  // the `current_working_directory` setting
    file: Option<string>,        // the window's `file` variable
    homeEnv: Option<string>,     // the `HOME` environment variable
    expandUser: string -> string,
    isAbs: string -> bool,
    isDir: string -> bool,
    normPath: string -> string)

  /** `os.environ.get('HOME', '/')`. */
  function HomeOf(host: Host): string {
    if host.homeEnv.Some? then host.homeEnv.value else "/"
  }

  /** The home folder after `_get_home`, given what it has cached. */
  function CachedHome(home: Option<string>, host: Host): string {
    if home.Some? then home.value else HomeOf(host)
  }

  /** The working-directory setting, when it names an absolute existing
      directory once `~` is expanded, normalised. */
  function SettingPwd(host: Host): Option<string> {
    match host.pwdSetting
    case None => None
    case Some(s) =>
      var e := host.expandUser(s);
      if host.isAbs(e) && host.isDir(e) then Some(host.normPath(e)) else None
  }

  /** The home folder is consulted only when nothing else names a directory. */
  predicate NeedsHome(host: Host, folders: seq<string>) {
    SettingPwd(host).None? && host.file.None? && folders == []
  }

  /** The fallback chain: the setting, else the directory of the window's file,
      else the first project folder, else the home folder. */
  function WorkingDirectory(host: Host, folders: seq<string>, home: string): string {
    if SettingPwd(host).Some? then SettingPwd(host).value
    else if host.file.Some? then Dirname(host.file.value)
    else if folders != [] then folders[0]
    else home
  }

  // ---------------------------------------------------------------------
  // The base folders in the order they are tried

  /** What `_folder_iterate` yields: the project folders, then the working
      directory unless it is one of them, or lies in one of them and
      `yieldPwdInFolder` is false. */
  function Iterated(pwd: string, folders: seq<string>, yieldPwdInFolder: bool): seq<string> {
    folders +
      if HasAncestorIn(pwd, folders) then (if yieldPwdInFolder then [pwd] else [])
      else if pwd in folders then []
      else [pwd]
  }

  lemma HasAncestorInAppend(x: string, fs: seq<string>, f: string)
    ensures HasAncestorIn(x, fs + [f]) <==> HasAncestorIn(x, fs) || (f != x && IsIn(x, f))
  {
    var gs := fs + [f];
    if HasAncestorIn(x, fs) {
      var j :| 0 <= j < |fs| && fs[j] != x && IsIn(x, fs[j]);
      assert gs[j] == fs[j];
    }
    if HasAncestorIn(x, gs) {
      var j :| 0 <= j < |gs| && gs[j] != x && IsIn(x, gs[j]);
      if j < |fs| {
        assert fs[j] == gs[j];
      }
    }
    if f != x && IsIn(x, f) {
      assert gs[|fs|] == f;
    }
  }

  /** Over pruned folders the working directory is tried exactly when it is
      not a project folder and, unless `yieldPwdInFolder`, not inside one; no
      folder is tried twice. */
  lemma IteratedProperties(pwd: string, folders: seq<string>, yieldPwdInFolder: bool)
    requires Pruned(folders)
    ensures var r := Iterated(pwd, folders, yieldPwdInFolder);
      r[..|folders|] == folders &&
      (|r| == |folders| + 1 <==> pwd !in folders && (yieldPwdInFolder || !HasAncestorIn(pwd, folders))) &&
      (|r| == |folders| || (|r| == |folders| + 1 && r[|folders|] == pwd))
    ensures Distinct(Iterated(pwd, folders, yieldPwdInFolder))
  {
    var r := Iterated(pwd, folders, yieldPwdInFolder);
    assert forall i :: 0 <= i < |folders| ==> r[i] == folders[i];
  }

  /** When the working directory falls back to the first project folder, it is
      not tried a second time. */
  lemma FallbackNotRepeated(host: Host, folders: seq<string>, home: string, yieldPwdInFolder: bool)
    requires Pruned(folders) && folders != []
    requires SettingPwd(host).None? && host.file.None?
    ensures Iterated(WorkingDirectory(host, folders, home), folders, yieldPwdInFolder) == folders
  {
  }

  // ---------------------------------------------------------------------
  // The cached folder state of the context command

  /** The cached state of one `gidopen_context` command. */
  class Context {
    var home: Option<string>
    var pwd: Option<string>
    var folders: seq<string>
    var labels: map<string, string>

    /** Once set up, the cached project folders are pruned and every label is
        the basename of a project folder. */
    ghost predicate Valid()
      reads this
    {
      pwd.Some? ==>
        Pruned(folders) &&
        forall f :: f in labels ==> f in folders && labels[f] == Basename(f)
    }

    /** The folders, labels and working directory `_setup_folders` computes
        when it had nothing cached, with `oldHome` the home folder cached
        before. */
    ghost predicate SetUpFolders(host: Host, oldHome: Option<string>)
      reads this
    {
      folders == Prune(host.windowFolders) &&
      (forall f :: f in labels <==> f in folders && BasenameCount(host.windowFolders, Basename(f)) == 1) &&
      (forall f :: f in labels ==> labels[f] == Basename(f)) &&
      pwd == Some(WorkingDirectory(host, folders, CachedHome(oldHome, host)))
    }

    /** The whole state `_setup_folders` leaves behind when it had nothing
        cached: the home folder is read only when the fallback chain reaches
        it. */
    ghost predicate SetUpFrom(host: Host, oldHome: Option<string>)
      reads this
    {
      SetUpFolders(host, oldHome) &&
      home == (if NeedsHome(host, folders) then Some(CachedHome(oldHome, host)) else oldHome)
    }

    constructor()
      ensures home.None? && pwd.None? && folders == [] && labels == map[]
      ensures Valid()
    {
      home := None;
      pwd := None;
      folders := [];
      labels := map[];
    }

    /** `description` drops the cached working directory before each use. */
    method Reset()
      modifies this
      ensures pwd.None? && home == old(home) && folders == old(folders) && labels == old(labels)
      ensures Valid()
    {
      pwd := None;
    }

    /** `_get_home`: reads `HOME` once, defaulting to `/`. */
    method GetHome(host: Host) returns (h: string)
      modifies this
      ensures h == CachedHome(old(home), host) && home == Some(h)
      ensures pwd == old(pwd) && folders == old(folders) && labels == old(labels)
    {
      if home.None? {
        home := Some(HomeOf(host));
      }
      h := home.value;
    }

    /** `_setup_folders`: computes the project folders, their labels and the
        working directory once, then answers from the cache. */
    method SetupFolders(host: Host) returns (p: string, fs: seq<string>, ls: map<string, string>)
      requires Valid()
      modifies this
      ensures Valid() && pwd == Some(p) && folders == fs && labels == ls
      ensures old(pwd).Some? ==>
        pwd == old(pwd) && folders == old(folders) && labels == old(labels) && home == old(home)
      ensures old(pwd).None? ==> SetUpFrom(host, old(home))
    {
      if pwd.None? {
        var kept, named := ScanFolders(host.windowFolders);
        PruneProperties(host.windowFolders);
        var wd: string;
        var setting := SettingPwd(host);
        if setting.Some? {
          wd := setting.value;
        } else if host.file.Some? {
          wd := Dirname(host.file.value);
        } else if kept != [] {
          wd := kept[0];
        } else {
          wd := GetHome(host);
        }
        pwd := Some(wd);
        folders := kept;
        labels := named;
      }
      p, fs, ls := pwd.value, folders, labels;
    }

    /** `_folder_iterate`: the project folders in order, then the working
        directory as `Iterated` describes. */
    method FolderIterate(host: Host, yieldPwdInFolder: bool) returns (r: seq<string>)
      requires Valid()
      modifies this
      ensures Valid() && pwd.Some?
      ensures r == Iterated(pwd.value, folders, yieldPwdInFolder)
      ensures old(pwd).Some? ==>
        pwd == old(pwd) && folders == old(folders) && labels == old(labels) && home == old(home)
      ensures old(pwd).None? ==> SetUpFrom(host, old(home))
    {
      var p, fs, ls := SetupFolders(host);
      var pwdIsFolder := false;
      var pwdInFolder := false;
      r := [];
      for i := 0 to |fs|
        invariant pwd == Some(p) && folders == fs && labels == ls
        invariant home == old(home) || old(pwd).None?
        invariant Valid() && (old(pwd).Some? ==> pwd == old(pwd) && folders == old(folders) && labels == old(labels) && home == old(home))
        invariant old(pwd).None? ==> SetUpFrom(host, old(home))
        invariant r == fs[..i]
        invariant pwdIsFolder <==> p in fs[..i]
        invariant pwdInFolder <==> HasAncestorIn(p, fs[..i])
      {
        assert fs[..i + 1] == fs[..i] + [fs[i]];
        HasAncestorInAppend(p, fs[..i], fs[i]);
        r := r + [fs[i]];
        if p == fs[i] {
          pwdIsFolder := true;
        } else if IsIn(p, fs[i]) {
          pwdInFolder := true;
        }
      }
      assert fs[..|fs|] == fs;
      if pwdInFolder {
        if yieldPwdInFolder {
          r := r + [p];
        }
      } else if !pwdIsFolder {
        r := r + [p];
      }
    }

    /** `_shorten_name` over the cached project folders: the home folder is
        read only when no labelled project folder holds the name. */
    method Shorten(host: Host, name: string) returns (r: string)
      requires Valid()
      modifies this
      ensures Valid() && pwd.Some?
      ensures r == ShortenName(name, folders, labels, CachedHome(old(home), host))
      ensures old(pwd).Some? ==> pwd == old(pwd) && folders == old(folders) && labels == old(labels)
      ensures old(pwd).None? ==> SetUpFolders(host, old(home))
      ensures home ==
        if LabelledFrom(name, folders, labels, 0).None? || (old(pwd).None? && NeedsHome(host, folders))
        then Some(CachedHome(old(home), host))
        else old(home)
    {
      var p, fs, ls := SetupFolders(host);
      ghost var h1 := home;
      var i := 0;
      while i < |fs|
        invariant i <= |fs|
        invariant pwd == Some(p) && folders == fs && labels == ls && home == h1 && Valid()
        invariant LabelledFrom(name, fs, ls, i) == LabelledFrom(name, fs, ls, 0)
      {
        if Covers(name, fs[i]) && fs[i] in ls {
          r := ls[fs[i]] + name[|fs[i]|..];
          return;
        }
        i := i + 1;
      }
      var h := GetHome(host);
      if h != "/" && name != h && IsIn(name, h) {
        r := "~" + name[|h|..];
      } else {
        r := name;
      }
    }
  }

  // ---------------------------------------------------------------------
  // Project membership and display names

  /** `_folder_in_project`: a project folder is the name or one of its
      ancestors. */
  function FolderInProject(name: string, folders: seq<string>): (r: bool)
    ensures r <==> CoveredBy(name, folders)
  {
    if folders == [] then false
    else if Covers(name, folders[0]) then (assert Covers(name, folders[0]); true)
    else
      var r := FolderInProject(name, folders[1..]);
      assert CoveredBy(name, folders[1..]) ==> CoveredBy(name, folders) by {
        if CoveredBy(name, folders[1..]) {
          var j :| 0 <= j < |folders[1..]| && Covers(name, folders[1..][j]);
          assert folders[j + 1] == folders[1..][j];
        }
      }
      assert CoveredBy(name, folders) ==> CoveredBy(name, folders[1..]) by {
        if CoveredBy(name, folders) {
          var j :| 0 <= j < |folders| && Covers(name, folders[j]);
          assert j != 0;
          assert folders[1..][j - 1] == folders[j];
        }
      }
      r
  }

  /** Every window folder and everything joined below a project folder belongs
      to the project. */
  lemma InProject(ws: seq<string>, k: nat, i: nat, rel: string)
    requires k < |ws| && i < |Prune(ws)|
    requires Prune(ws)[i] != [] && Prune(ws)[i][|Prune(ws)[i]| - 1] != '/'
    requires rel != [] && rel[0] != '/'
    ensures FolderInProject(ws[k], Prune(ws))
    ensures FolderInProject(Join(Prune(ws)[i], rel), Prune(ws))
  {
    PruneProperties(ws);
    JoinIsIn(Prune(ws)[i], rel);
    assert Covers(Join(Prune(ws)[i], rel), Prune(ws)[i]);
  }

  /** The first project folder, from position `i` on, that covers `name` and has
      a label. */
  function LabelledFrom(name: string, folders: seq<string>, labels: map<string, string>, i: nat): (r: Option<nat>)
    requires i <= |folders|
    ensures r.Some? ==> i <= r.value < |folders| && Covers(name, folders[r.value]) && folders[r.value] in labels
    ensures r.Some? ==> forall j :: i <= j < r.value ==> !(Covers(name, folders[j]) && folders[j] in labels)
    ensures r.None? ==> forall j :: i <= j < |folders| ==> !(Covers(name, folders[j]) && folders[j] in labels)
    decreases |folders| - i
  {
    if i == |folders| then None
    else if Covers(name, folders[i]) && folders[i] in labels then Some(i)
    else LabelledFrom(name, folders, labels, i + 1)
  }

  /** `_shorten_name`: the label of the first labelled project folder holding
      the name, followed by the rest of the name; else `~` for a home folder
      other than `/`; else the name itself. */
  function ShortenName(name: string, folders: seq<string>, labels: map<string, string>, home: string): string {
    match LabelledFrom(name, folders, labels, 0)
    case Some(i) => labels[folders[i]] + name[|folders[i]|..]
    case None =>
      if home != "/" && name != home && IsIn(name, home) then "~" + name[|home|..] else name
  }

  /** Over pruned folders, a name in a labelled project folder is shown through
      that folder's label: no other project folder holds it. */
  lemma ShortenNameLabel(name: string, folders: seq<string>, labels: map<string, string>, home: string, i: nat)
    requires Pruned(folders) && i < |folders|
    requires Covers(name, folders[i]) && folders[i] in labels
    ensures |folders[i]| <= |name| && name[..|folders[i]|] == folders[i]
    ensures ShortenName(name, folders, labels, home) == labels[folders[i]] + name[|folders[i]|..]
  {
    var r := LabelledFrom(name, folders, labels, 0);
    PrunedCoverUnique(folders, name, i, r.value);
  }

  /** Outside every labelled project folder, a name below the home folder is
      shown as `~` and the rest of the name; the home folder puts it back. */
  lemma ShortenNameHome(name: string, folders: seq<string>, labels: map<string, string>, home: string)
    requires forall j :: 0 <= j < |folders| ==> !(Covers(name, folders[j]) && folders[j] in labels)
    requires home != "/" && name != home && IsIn(name, home)
    ensures var r := ShortenName(name, folders, labels, home);
      |r| > 1 && r[0] == '~' && r[1] == '/' && home + r[1..] == name
  {
    var r := ShortenName(name, folders, labels, home);
    assert r[1..] == name[|home|..];
    assert name == name[..|home|] + name[|home|..];
  }

  /** Any other name is shown as it is. */
  lemma ShortenNameUnchanged(name: string, folders: seq<string>, labels: map<string, string>, home: string)
    requires forall j :: 0 <= j < |folders| ==> !(Covers(name, folders[j]) && folders[j] in labels)
    requires home == "/" || name == home || !IsIn(name, home)
    ensures ShortenName(name, folders, labels, home) == name
  {
  }
}
