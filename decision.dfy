/** What the context menu offers for a click (gidopen.py `description`): the
    candidates are sorted by kind, the first kind in the order file, folder,
    missing file, missing folder that has a candidate wins, and within it the
    longest region, first seen on ties (`select_longest`). Also the
    classification of an absolute path, with the climb to the outermost
    missing folder. */
module Decision {
  import opened PathText
  import opened PosixPath
  import opened Regions
  import opened Matching
  import opened LineCol
  import opened Folders

  // ---------------------------------------------------------------------
  // select_longest

  /** `i` is the first candidate with the largest region. */
  predicate LongestFirstAt(cs: seq<Candidate>, i: int) {
    0 <= i < |cs| &&
    (forall j :: 0 <= j < |cs| ==> cs[j].region.Size() <= cs[i].region.Size()) &&
    (forall j :: 0 <= j < i ==> cs[j].region.Size() < cs[i].region.Size())
  }

  /** The position of the first longest candidate. */
  function FirstLongest(cs: seq<Candidate>): (i: nat)
    requires cs != []
    ensures LongestFirstAt(cs, i)
  {
    if |cs| == 1 then 0
    else
      var init := cs[..|cs| - 1];
      var i := FirstLongest(init);
      assert forall j :: 0 <= j < |init| ==> init[j] == cs[j];
      if cs[|cs| - 1].region.Size() > cs[i].region.Size() then |cs| - 1 else i
  }

  /** At most one position is the first longest. */
  lemma LongestFirstUnique(cs: seq<Candidate>, i: int, j: int)
    requires LongestFirstAt(cs, i) && LongestFirstAt(cs, j)
    ensures i == j
  {
    assert cs[j].region.Size() <= cs[i].region.Size();
    assert cs[i].region.Size() <= cs[j].region.Size();
  }

  /** The candidate `select_longest` returns. */
  function Best(cs: seq<Candidate>): Option<Candidate> {
    if cs == [] then None else Some(cs[FirstLongest(cs)])
  }

  /** `select_longest`: keeps the first candidate whose size beats every size
      seen so far, starting from -1. */
  method SelectLongest(cs: seq<Candidate>) returns (r: Option<Candidate>)
    ensures r == Best(cs)
  {
    r := None;
    var maxlen: int := -1;
    for k := 0 to |cs|
      invariant k == 0 ==> r.None? && maxlen == -1
      invariant k > 0 ==> r == Some(cs[FirstLongest(cs[..k])]) && maxlen == r.value.region.Size()
    {
      var length := cs[k].region.Size();
      assert cs[..k + 1][..k] == cs[..k];
      if length > maxlen {
        r := Some(cs[k]);
        maxlen := length;
      }
    }
    assert cs[..|cs|] == cs;
  }

  /** The best candidate is one of them, no other is longer, and every earlier
      one is shorter. */
  lemma BestProperties(cs: seq<Candidate>)
    ensures Best(cs).None? <==> cs == []
    ensures Best(cs).Some? ==> exists i :: LongestFirstAt(cs, i) && Best(cs).value == cs[i]
  {
    if cs != [] {
      assert LongestFirstAt(cs, FirstLongest(cs));
    }
  }

  // ---------------------------------------------------------------------
  // Sorting the candidates by kind

  /** The candidates of kind `k`, in order. */
  function OfKind(cs: seq<Candidate>, k: Kind): seq<Candidate> {
    if cs == [] then []
    else OfKind(cs[..|cs| - 1], k) + (if cs[|cs| - 1].kind == k then [cs[|cs| - 1]] else [])
  }

  lemma {:induction false} OfKindSound(cs: seq<Candidate>, k: Kind)
    ensures forall c :: c in OfKind(cs, k) <==> c in cs && c.kind == k
  {
    if cs != [] {
      OfKindSound(cs[..|cs| - 1], k);
      assert cs == cs[..|cs| - 1] + [cs[|cs| - 1]];
    }
  }

  lemma OfKindSnoc(init: seq<Candidate>, last: Candidate, k: Kind)
    ensures OfKind(init + [last], k) == OfKind(init, k) + (if last.kind == k then [last] else [])
  {
    assert (init + [last])[..|init|] == init;
  }

  /** Each list keeps every candidate of its kind as often as it occurs, and
      (by `OfKindSound`) no candidate of another kind: the lists partition the
      candidates. */
  lemma {:induction false} OfKindPartition(cs: seq<Candidate>, k: Kind)
    ensures forall c: Candidate :: c.kind == k ==> multiset(OfKind(cs, k))[c] == multiset(cs)[c]
  {
    if cs != [] {
      var init := cs[..|cs| - 1];
      var last := cs[|cs| - 1];
      OfKindPartition(init, k);
      assert cs == init + [last];
      OfKindSnoc(init, last, k);
    }
  }

  /** The sorting loop of `description`. */
  method Partition(cs: seq<Candidate>)
    returns (files: seq<Candidate>, folders: seq<Candidate>, notfiles: seq<Candidate>,
             notfolders: seq<Candidate>, texts: seq<Candidate>)
    ensures files == OfKind(cs, FileFound) && folders == OfKind(cs, FolderFound)
    ensures notfiles == OfKind(cs, FileNotFound) && notfolders == OfKind(cs, FolderNotFound)
    ensures texts == OfKind(cs, TextFound)
  {
    files, folders, notfiles, notfolders, texts := [], [], [], [], [];
    for i := 0 to |cs|
      invariant files == OfKind(cs[..i], FileFound) && folders == OfKind(cs[..i], FolderFound)
      invariant notfiles == OfKind(cs[..i], FileNotFound) && notfolders == OfKind(cs[..i], FolderNotFound)
      invariant texts == OfKind(cs[..i], TextFound)
    {
      var c := cs[i];
      assert cs[..i + 1][..i] == cs[..i];
      match c.kind
      case FileFound => files := files + [c];
      case FolderFound => folders := folders + [c];
      case FileNotFound => notfiles := notfiles + [c];
      case FolderNotFound => notfolders := notfolders + [c];
      case TextFound => texts := texts + [c];
    }
    assert cs[..|cs|] == cs;
  }

  // ---------------------------------------------------------------------
  // The decision

  datatype Action = FolderAdd | FolderReveal | FileOpen | FileGoto | FileNew | FolderNew

  /** The menu text of each action. */
  function ActionName(a: Action): string {
    match a
    case FolderAdd => "Add Folder"
    case FolderReveal => "Reveal"
    case FileOpen => "Open"
    case FileGoto => "Goto"
    case FileNew => "New File"
    case FolderNew => "Create Folder"
  }

  /** Each action has its own menu text, so the text tells the action. */
  lemma ActionNamesDistinct(a: Action, b: Action)
    ensures ActionName(a) == ActionName(b) <==> a == b
  {
  }

  /** The action, the path it applies to (stored in the view's settings) and
      the label shown in the menu; all three are `None` without a candidate. */
  datatype Choice = Choice(action: Option<Action>, path: Option<string>, title: Option<string>)

  /** `'{} {}'.format(action, label)`. */
  function MenuText(c: Choice): string {
    (if c.action.Some? then ActionName(c.action.value) else "None") + " " +
    (if c.title.Some? then c.title.value else "None")
  }

  /** The column as Python formats it: the integer 0 when none was read. */
  function ColText(lc: LineCol): string {
    if lc.col.Some? then lc.col.value else "0"
  }

  /** The path handed to the editor: always with a line and a column. */
  function GotoPath(path: string, lc: LineCol): string {
    path + ":" + lc.line + ":" + ColText(lc)
  }

  /** The label: the column only when one was read. */
  function GotoLabel(shown: string, lc: LineCol): string {
    shown + ":" + lc.line + (if lc.col.Some? then ":" + lc.col.value else "")
  }

  /** The offset just after a region, `Region.end()`. */
  function End(r: Region): int {
    if r.b <= r.e then r.e else r.b
  }

  /** Regions of the buffer have non-negative offsets. */
  predicate Placed(cs: seq<Candidate>) {
    forall i :: 0 <= i < |cs| ==> cs[i].region.b >= 0 && cs[i].region.e >= 0
  }

  /** What `description` decides, given the buffer, the candidates, and the
      project folders, labels and home folder it shortens names with. */
  function Decide(buf: string, cs: seq<Candidate>, folders: seq<string>,
                  labels: map<string, string>, home: string): Choice
    requires Placed(cs)
  {
    var file := Best(OfKind(cs, FileFound));
    if file.Some? then
      OfKindSound(cs, FileFound);
      var c := file.value;
      var shown := ShortenName(c.path, folders, labels, home);
      match ParseLineCol(buf, End(c.region))
      case Some(lc) => Choice(Some(FileGoto), Some(GotoPath(c.path, lc)), Some(GotoLabel(shown, lc)))
      case None => Choice(Some(FileOpen), Some(c.path), Some(shown))
    else
      var folder := Best(OfKind(cs, FolderFound));
      if folder.Some? then
        var c := folder.value;
        var action := if FolderInProject(c.path, folders) then FolderReveal else FolderAdd;
        Choice(Some(action), Some(c.path), Some(ShortenName(c.path, folders, labels, home)))
      else
        var notfile := Best(OfKind(cs, FileNotFound));
        if notfile.Some? then
          var c := notfile.value;
          Choice(Some(FileNew), Some(c.path), Some(ShortenName(c.path, folders, labels, home)))
        else
          var notfolder := Best(OfKind(cs, FolderNotFound));
          if notfolder.Some? then
            var c := notfolder.value;
            Choice(Some(FolderNew), Some(c.path), Some(ShortenName(c.path, folders, labels, home)))
          else Choice(None, None, None)
  }

  /** `description` after the candidate search: resets the cached working
      directory, sets the folders up again, sorts the candidates and decides.
      (The candidate search itself sets the folders up first in the source; it
      is not part of this model.) */
  method Describe(ctx: Context, host: Host, buf: string, cs: seq<Candidate>) returns (choice: Choice, text: string)
    requires ctx.Valid() && Placed(cs)
    modifies ctx
    ensures ctx.Valid() && ctx.SetUpFolders(host, old(ctx.home))
    ensures ctx.home == old(ctx.home) || ctx.home == Some(CachedHome(old(ctx.home), host))
    ensures choice == Decide(buf, cs, ctx.folders, ctx.labels, CachedHome(old(ctx.home), host))
    ensures text == MenuText(choice)
  {
    choice := Choose(ctx, host, buf, cs);
    text := MenuText(choice);
  }

  /** The choice `description` stores in the view's settings. */
  method Choose(ctx: Context, host: Host, buf: string, cs: seq<Candidate>) returns (choice: Choice)
    requires ctx.Valid() && Placed(cs)
    modifies ctx
    ensures ctx.Valid() && ctx.SetUpFolders(host, old(ctx.home))
    ensures ctx.home == old(ctx.home) || ctx.home == Some(CachedHome(old(ctx.home), host))
    ensures choice == Decide(buf, cs, ctx.folders, ctx.labels, CachedHome(old(ctx.home), host))
  {
    ctx.Reset();
    var pwd, projectFolders, projectLabels := ctx.SetupFolders(host);
    assert CachedHome(ctx.home, host) == CachedHome(old(ctx.home), host);
    var files, folders, notfiles, notfolders, texts := Partition(cs);
    OfKindSound(cs, FileFound);
    var candidate := SelectLongest(files);
    if candidate.Some? {
      choice := OfferFile(ctx, host, buf, candidate.value);
      return;
    }
    candidate := SelectLongest(folders);
    if candidate.Some? {
      var path := candidate.value.path;
      var action := if FolderInProject(path, projectFolders) then FolderReveal else FolderAdd;
      choice := Offer(ctx, host, action, path);
      return;
    }
    candidate := SelectLongest(notfiles);
    if candidate.Some? {
      choice := Offer(ctx, host, FileNew, candidate.value.path);
      return;
    }
    candidate := SelectLongest(notfolders);
    if candidate.Some? {
      choice := Offer(ctx, host, FolderNew, candidate.value.path);
      return;
    }
    choice := Choice(None, None, None);
  }

  /** The menu entry for `action` on `path`, labelled with the shortened path. */
  method Offer(ctx: Context, host: Host, action: Action, path: string) returns (choice: Choice)
    requires ctx.Valid() && ctx.pwd.Some?
    modifies ctx
    ensures ctx.Valid() && ctx.pwd == old(ctx.pwd) && ctx.folders == old(ctx.folders) && ctx.labels == old(ctx.labels)
    ensures ctx.home == old(ctx.home) || ctx.home == Some(CachedHome(old(ctx.home), host))
    ensures choice == Choice(Some(action), Some(path),
                             Some(ShortenName(path, ctx.folders, ctx.labels, CachedHome(old(ctx.home), host))))
  {
    var shown := ctx.Shorten(host, path);
    choice := Choice(Some(action), Some(path), Some(shown));
  }

  /** The menu entry for an existing file: go to the line and column that
      follow it in the buffer, or open it when none follow. */
  method OfferFile(ctx: Context, host: Host, buf: string, c: Candidate) returns (choice: Choice)
    requires ctx.Valid() && ctx.pwd.Some? && c.region.b >= 0 && c.region.e >= 0
    modifies ctx
    ensures ctx.Valid() && ctx.pwd == old(ctx.pwd) && ctx.folders == old(ctx.folders) && ctx.labels == old(ctx.labels)
    ensures ctx.home == old(ctx.home) || ctx.home == Some(CachedHome(old(ctx.home), host))
    ensures var shown := ShortenName(c.path, ctx.folders, ctx.labels, CachedHome(old(ctx.home), host));
      match ParseLineCol(buf, End(c.region))
      case Some(lc) => choice == Choice(Some(FileGoto), Some(GotoPath(c.path, lc)), Some(GotoLabel(shown, lc)))
      case None => choice == Choice(Some(FileOpen), Some(c.path), Some(shown))
  {
    var path := c.path;
    var shown := ctx.Shorten(host, path);
    var linecol := GetLineCol(buf, End(c.region));
    if linecol.Some? {
      choice := Choice(Some(FileGoto), Some(GotoPath(path, linecol.value)), Some(GotoLabel(shown, linecol.value)));
    } else {
      choice := Choice(Some(FileOpen), Some(path), Some(shown));
    }
  }

  /** The kinds are tried in the order file, folder, missing file, missing
      folder; text candidates never decide; with none of the four there is no
      action, path or label. */
  lemma DecidePriority(buf: string, cs: seq<Candidate>, folders: seq<string>,
                       labels: map<string, string>, home: string)
    requires Placed(cs)
    ensures var d := Decide(buf, cs, folders, labels, home);
      var files := OfKind(cs, FileFound);
      var dirs := OfKind(cs, FolderFound);
      var notfiles := OfKind(cs, FileNotFound);
      var notdirs := OfKind(cs, FolderNotFound);
      (d.action == Some(FileOpen) || d.action == Some(FileGoto) <==> files != []) &&
      (d.action == Some(FolderReveal) || d.action == Some(FolderAdd) <==> files == [] && dirs != []) &&
      (d.action == Some(FileNew) <==> files == [] && dirs == [] && notfiles != []) &&
      (d.action == Some(FolderNew) <==> files == [] && dirs == [] && notfiles == [] && notdirs != []) &&
      (d.action.None? <==> files == [] && dirs == [] && notfiles == [] && notdirs == []) &&
      (d.action.None? <==> d.path.None?) && (d.action.None? <==> d.title.None?)
  {
  }

  /** A folder is revealed exactly when it belongs to the project, and its path
      is that of the longest folder candidate. */
  lemma DecideFolder(buf: string, cs: seq<Candidate>, folders: seq<string>,
                     labels: map<string, string>, home: string)
    requires Placed(cs) && OfKind(cs, FileFound) == [] && OfKind(cs, FolderFound) != []
    ensures var d := Decide(buf, cs, folders, labels, home);
      exists i :: LongestFirstAt(OfKind(cs, FolderFound), i) && d.path == Some(OfKind(cs, FolderFound)[i].path) &&
        (d.action == Some(FolderReveal) <==> CoveredBy(OfKind(cs, FolderFound)[i].path, folders))
  {
    var dirs := OfKind(cs, FolderFound);
    assert LongestFirstAt(dirs, FirstLongest(dirs));
  }

  /** The file path always carries a line and a column; the label shows the
      column only when the text holds one. */
  lemma GotoFormat(path: string, shown: string, lc: LineCol)
    ensures lc.col.None? ==> GotoPath(path, lc) == path + ":" + lc.line + ":0"
    ensures lc.col.None? ==> GotoLabel(shown, lc) == shown + ":" + lc.line
    ensures lc.col.Some? ==> GotoPath(path, lc) == path + ":" + lc.line + ":" + lc.col.value
    ensures lc.col.Some? ==> GotoLabel(shown, lc) == shown + ":" + lc.line + ":" + lc.col.value
  {
  }

  /** `a.py:12 x` clicked on `a.py` offers to go to line 12, column 0, and shows
      `a.py:12`. */
  lemma GotoExample()
    ensures var c := Candidate(FileFound, Region(0, 4), "a.py");
      Decide("a.py:12 x", [c], [], map[], "/") ==
        Choice(Some(FileGoto), Some("a.py:12:0"), Some("a.py:12"))
  {
    var c := Candidate(FileFound, Region(0, 4), "a.py");
    var lc := LineCol("12", None);
    ExampleParse();
    ExampleBest(c);
    assert End(c.region) == 4;
    assert ShortenName("a.py", [], map[], "/") == "a.py";
    assert GotoPath("a.py", lc) == "a.py:12:0";
    assert GotoLabel("a.py", lc) == "a.py:12";
  }

  lemma ExampleParse()
    ensures ParseLineCol("a.py:12 x", 4) == Some(LineCol("12", None))
  {
    var buf := "a.py:12 x";
    assert TextAt(buf, 4, ":" + "12") by {
      assert buf[4..7] == ":12";
    }
    ColonLine(buf, 4, "12");
  }

  lemma ExampleBest(c: Candidate)
    requires c.kind == FileFound
    ensures Best(OfKind([c], FileFound)) == Some(c)
  {
    assert OfKind([c], FileFound) == [c] by {
      assert [c][..0] == [];
    }
  }

  // ---------------------------------------------------------------------
  // An absolute path that does not exist

  /** Climb from `path` while its parent is missing, stopping at the root. */
  function Climb(path: string, isDir: string -> bool): string
    decreases |path|
  {
    var parent := Dirname(path);
    if parent == path || isDir(parent) then path
    else
      SplitShape(path);
      Climb(parent, isDir)
  }

  lemma {:induction false} UpDirname(p: string, k: nat)
    ensures Up(Dirname(p), k) == Up(p, k + 1)
  {
    if k > 0 {
      UpDirname(p, k - 1);
    }
  }

  /** The climb stops `k` levels up at a missing folder whose parent exists
      (or at the root); every folder passed on the way is missing too. */
  lemma {:induction false} ClimbProperties(path: string, isDir: string -> bool) returns (k: nat)
    ensures Climb(path, isDir) == Up(path, k)
    ensures forall j :: 1 <= j <= k ==> !isDir(Up(path, j))
    ensures var r := Climb(path, isDir); Dirname(r) == r || isDir(Dirname(r))
    decreases |path|
  {
    var parent := Dirname(path);
    if parent == path || isDir(parent) {
      k := 0;
    } else {
      SplitShape(path);
      var k' := ClimbProperties(parent, isDir);
      UpDirname(path, k');
      k := k' + 1;
      forall j | 1 <= j <= k
        ensures !isDir(Up(path, j))
      {
        if j > 1 {
          UpDirname(path, j - 1);
        }
      }
    }
  }

  /** The climb of `_handle_click_region`: from the missing parent of
      `expanded`, up while the next parent is missing too. */
  method MissingFolder(expanded: string, isDir: string -> bool) returns (path: string)
    ensures path == Climb(Dirname(expanded), isDir)
  {
    path := Dirname(expanded);
    var parent := Dirname(path);
    while parent != path && !isDir(parent)
      invariant parent == Dirname(path)
      invariant Climb(path, isDir) == Climb(Dirname(expanded), isDir)
      decreases |path|
    {
      SplitShape(path);
      path := parent;
      parent := Dirname(path);
    }
  }

  /** The candidate for an absolute path: a file, a folder, a missing file in
      an existing folder, or the outermost missing folder. */
  function Classify(region: Region, expanded: string, isFile: string -> bool, isDir: string -> bool): Candidate {
    if isFile(expanded) then Candidate(FileFound, region, expanded)
    else if isDir(expanded) then Candidate(FolderFound, region, expanded)
    else if isDir(Dirname(expanded)) then Candidate(FileNotFound, region, expanded)
    else Candidate(FolderNotFound, region, Climb(Dirname(expanded), isDir))
  }

  method ClassifyAbsolute(region: Region, expanded: string, isFile: string -> bool, isDir: string -> bool)
    returns (c: Candidate)
    ensures c == Classify(region, expanded, isFile, isDir)
  {
    if isFile(expanded) {
      c := Candidate(FileFound, region, expanded);
    } else if isDir(expanded) {
      c := Candidate(FolderFound, region, expanded);
    } else if isDir(Dirname(expanded)) {
      c := Candidate(FileNotFound, region, expanded);
    } else {
      var path := MissingFolder(expanded, isDir);
      c := Candidate(FolderNotFound, region, path);
    }
  }

  /** A missing folder candidate names an ancestor of the path that is missing
      and whose parent exists (or that is the root). */
  lemma MissingFolderProperties(region: Region, expanded: string, isFile: string -> bool, isDir: string -> bool)
    requires Classify(region, expanded, isFile, isDir).kind == FolderNotFound
    ensures var p := Classify(region, expanded, isFile, isDir).path;
      |p| <= |expanded| && p == expanded[..|p|] &&
      !isDir(p) && (Dirname(p) == p || isDir(Dirname(p)))
  {
    var start := Dirname(expanded);
    var k := ClimbProperties(start, isDir);
    UpIsPrefix(start, k);
    SplitShape(expanded);
    var p := Climb(start, isDir);
    assert p == start[..|p|];
    assert start[..|p|] == expanded[..|start|][..|p|];
    if k > 0 {
      assert !isDir(Up(start, k));
    }
  }
}
