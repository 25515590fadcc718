# gidopen path inference, modelled in Dafny

gidopen is a Sublime Text plugin. When the user right-clicks in a text buffer,
it works out which file or folder the text around the click names, and offers
one of these menu actions on it: Open, Goto (a line and column), Reveal, Add
Folder, New File or Create Folder. This project models the text and region
logic of `gidopen.py` and proves what it computes:

- **PathText**: the path-character class, `find_all`, region reads that clip
  at the buffer end, and `rstrip('/.')`.
- **PosixPath**: `os.path.split`, `dirname`, `basename` and `join` for `/`
  separators, and repeated `dirname`.
- **Regions**: `expand_path`, the click-point window and its trailing-slash
  strip, `_expand_right`, and `_expand_left`'s walk over parent folders.
- **LineCol**: `get_line_col`, as a total parse function with one scanner
  method per form it recognises.
- **Matching**: the candidates, the name-offset test of `_search_contains`,
  the listing step of `_search_prefix`, and the `./` rule of
  `_handle_click_point`.
- **Folders**: `is_in`, the project folders and their labels, the
  working-directory fallback chain, `_folder_iterate`, `_folder_in_project`
  and `_shorten_name`. The command's cached state is a class.
- **Decision**: `select_longest`, the sorting of candidates by kind, the menu
  decision of `description`, and the classification of a missing absolute
  path with its climb to the outermost missing folder.

The buffer is a `string`. A one-character read outside it gives NUL, which is
not a digit, not a path character, and counts as a control character. A
region read is clipped to the buffer. The filesystem, the environment and the
editor settings are parameters: `isDir`, `isFile` and `listdir` are given
functions, and a `Host` value carries the window folders, the settings, the
`HOME` variable and the `expanduser`/`isabs`/`normpath` functions.

## Model

| member | source | states |
|---|---|---|
| PathText.PathCharPolicy | gidopen.py:18-28 | examples of the class: `=`, `#`, `(`, space, NUL and `:` are not path characters; `$`, `{`, `}`, `%`, `/` and `.` are |
| PathText.IsLikelyPathChar | gidopen.py:18-28 | the path-character class: not a control character and not in the exclusion list; `PathText.PathCharPolicy` states it character by character |
| PathText.Substr | gidopen.py:298 | a region read is the buffer slice when the region lies in the buffer, and never longer than the region |
| PathText.SubstrFull | gidopen.py:298 | a region read that comes back at full length lies inside the buffer and equals its slice |
| PathText.FindFrom | gidopen.py:33-36 | `str.find` from an offset: -1, or an occurrence at or after the offset with none between the offset and it |
| PathText.FindAll | gidopen.py:31-36 | the loop returns `Occurrences` from offset 0: strictly increasing offsets that are exactly the occurrences of the pattern, overlapping ones included |
| PathText.Occurrences | gidopen.py:31-36 | the offsets `find_all` yields from an offset, in the order it yields them |
| PathText.OccurrencesExact | gidopen.py:31-36 | those offsets are strictly increasing, and an offset is among them exactly when it is at or after the start and the pattern occurs there |
| PathText.RStripSlashDot | gidopen.py:462 | `rstrip('/.')`: a prefix of the text that does not end in `/` or `.`, and everything removed is `/` or `.` |
| PosixPath.SplitShape | gidopen.py:542 | the dirname is a prefix of the path and is shorter unless it is the path itself; the basename is a suffix without `/` |
| PosixPath.UpIsPrefix | gidopen.py:427-431 | going up any number of folders gives a prefix of the path |
| Regions.RunStart | gidopen.py:101-102 | the first loop of `expand_path` stops at the buffer start or after a non-path character, and passes only path characters |
| Regions.RunEnd | gidopen.py:103-104 | the second loop stops at the buffer end or at a non-path character, and passes only path characters |
| Regions.ExpandPath | gidopen.py:99-105 | the loops give `b <= begin`, `end <= e <= size`, only path characters in between, and a non-path character or buffer edge on both sides |
| Regions.ClickWindow | gidopen.py:448-456 | the window is the run around a seed and holds the click; the seed is the click when the click touches a path character or the buffer is empty; otherwise it is the character after the click exactly when the click is before the end and the try on the character before it does not grow to two characters, and the character before the click otherwise |
| Regions.ClickRegion | gidopen.py:448-467 | the window is the one `ClickWindow` states, from the same seed; no region exactly when it is all `/` and `.`; otherwise the region starts at the window start, lies in the buffer and ends before the trailing `/` and `.` run |
| Regions.StripWindow | gidopen.py:458-467 | stripping a window: nothing left exactly when it is all `/` and `.`; otherwise the kept end is the last character that is neither |
| Regions.StripInBuffer | gidopen.py:462-463 | the stripped end stays in the window, equals its start exactly when the window is all `/` and `.`, and everything after it is `/` or `.` |
| Regions.ExpandRight | gidopen.py:294-300 | a region exactly when the text after the prefix equals the suffix; it is the prefix grown by the suffix length; an empty suffix gives the prefix back |
| Regions.WalkLeft | gidopen.py:532-549 | the walk never moves the match start to the right |
| Regions.LeftStart | gidopen.py:526-550 | where `_expand_left` puts the region start: the walk from the character before it; `Regions.ExpandLeftSound` and the lemmas after it state what that start means |
| Regions.ExpandLeft | gidopen.py:526-550 | the loop computes `LeftStart`; the end is kept and the start stays between 0 and the old start |
| Regions.ExpandLeftSound | gidopen.py:526-550 | the added text spells the innermost components of `dirname`, outermost first, each followed by `/` and any `/` or `./` runs |
| Regions.ExpandLeftTakesParent | gidopen.py:542-549 | when `c/` precedes the region and `c` is the basename of `dirname`, the region grows over at least `c/` |
| Regions.ExpandLeftNeedsSeparator | gidopen.py:532 | without a `/` just before the region, the region is unchanged |
| Regions.ExpandLeftSkipsDot | gidopen.py:536-541 | `c/./` before the region is taken as one component, with the `/.` skipped |
| Regions.SpelledComponents | gidopen.py:542-549 | text that spells `k` real components of `dirname` (not empty, not `.`), each followed by `/`, holds each component in turn before the region |
| Regions.WalkLeftTakesAll | gidopen.py:532-549 | when each of `k` components of `dir` precedes the match start in turn, the walk takes all of them |
| Regions.ExpandLeftTakesComponents | gidopen.py:526-550 | when the `k` innermost real components of `dirname`, each followed by `/`, precede the region, `_expand_left` grows it over at least all of that text |
| LineCol.DigitRun | gidopen.py:128-131 | a digit loop passes only digits and stops at a non-digit (NUL past the end) |
| LineCol.Digits | gidopen.py:135-141 | the digits read are a non-empty run of digits taken from the buffer at that offset |
| LineCol.DigitRunOf | gidopen.py:149-152 | a run of digits followed by a non-digit is exactly what the loop reads |
| LineCol.ScanDigits | gidopen.py:146-152 | the scanning loop returns `Digits` and the offset just after them |
| LineCol.GetLineCol | gidopen.py:108-185 | the scanner returns `ParseLineCol` |
| LineCol.ParseLineCol | gidopen.py:108-185 | the four forms tried in the source's order from the character after the region; `LineCol.ParseLineColSound` and the lemmas after it state what each gives |
| LineCol.ScanBash | gidopen.py:116-143 | the bash branches return `ParseBash` |
| LineCol.ScanLineThenCol | gidopen.py:144-169 | the `:LINE[:COL]` branch returns `ParseLineThenCol` |
| LineCol.ScanPython | gidopen.py:171-184 | the Python branch returns `ParsePython` |
| LineCol.TextAtConcat | gidopen.py:120 | text at an offset is a concatenation exactly when its parts follow one another |
| LineCol.ParseLineColSound | gidopen.py:108-185 | every result has a non-empty digit line after one of the four lead-ins; a column is non-empty digits after `:LINE:`, followed by a control character, space, `:` or the end |
| LineCol.ColonLine | gidopen.py:144-154 | `:N` followed by neither a digit nor `:` gives `(N, 0)` |
| LineCol.ColonLineNoCol | gidopen.py:153-158 | `:N:` followed by a non-digit gives `(N, 0)` |
| LineCol.ColonLineCol | gidopen.py:155-166 | `:N:M` followed by a control character, space, `:` or the end gives `(N, M)` |
| LineCol.DateGuard | gidopen.py:165-169 | `:N:M` followed by any other non-digit (as in a log date) gives `(N, 0)` |
| LineCol.BashLine | gidopen.py:119-132 | `: line N` gives `(N, 0)` |
| LineCol.BashColon | gidopen.py:133-143 | `: N:` gives `(N, 0)` |
| LineCol.PythonLine | gidopen.py:171-184 | `", line N` gives `(N, 0)` |
| LineCol.NoLineCol | gidopen.py:108-185 | text starting with neither `:` nor `"` gives nothing, and so does `: N` not followed by `:` |
| Matching.HitBySubstr | gidopen.py:559-565 | an occurrence is a hit exactly when the buffer text at the shifted region equals the name |
| Matching.HitsOfSound | gidopen.py:559-565 | every region kept for a name comes from an occurrence of the basename whose buffer text is the name |
| Matching.HitsOfComplete | gidopen.py:559-565 | every occurrence whose buffer text is the name gives its region |
| Matching.NameHits | gidopen.py:559-565 | returns `NameHitsOf`: one region per occurrence of the basename in the name, in the order of the occurrences, kept exactly when the buffer text is the name; starts strictly decrease |
| Matching.NameHitsOf | gidopen.py:559-565 | the hits of one name along the occurrences `find_all` yields |
| Matching.NameHitsOfExact | gidopen.py:559-565 | every region in `NameHitsOf` is a hit of an occurrence, every hit is in it, and the starts strictly decrease |
| Matching.HitsAlong | gidopen.py:559-565 | the offset loop keeps, in order, the hits along the offsets it is given |
| Matching.ContainsCandidate | gidopen.py:558-573 | a candidate exactly when the joined path is a folder or a file; a folder wins, the region is the hit, the path is the joined path |
| Matching.FolderHits | gidopen.py:557-573 | returns `FolderCandidates`: entry by entry in listing order, each hit in order; every candidate comes from a hit of an existing entry, and every such hit gives a candidate |
| Matching.EntryCandidates | gidopen.py:558-573 | the candidates of one entry: its hits tagged folder or file when the joined path exists, none otherwise |
| Matching.EntryCandidatesExact | gidopen.py:558-573 | a candidate is among them exactly when it is the `ContainsCandidate` of a hit |
| Matching.Tagged | gidopen.py:566-573 | one candidate per region, in order, with the given kind and path |
| Matching.FolderCandidates | gidopen.py:557-573 | the candidates of the first `n` entries of a listing, in listing order |
| Matching.SearchContains | gidopen.py:552-573 | returns `SearchCandidates`: base folder by base folder in the order given; candidates are in-buffer folders or files, each from a hit, and every hit of an existing entry is found |
| Matching.SearchCandidates | gidopen.py:552-573 | the candidates of the first `n` base folders, in order |
| Matching.SearchSoundWithin | gidopen.py:552-573 | every sound candidate lies in the buffer and is a folder or file |
| Matching.ContainsCandidateText | gidopen.py:559-565 | a candidate's region holds the entry's name in the buffer and covers the clicked basename |
| Matching.SuffixIsRestOfName | gidopen.py:581-585 | the suffix taken after `join(folder, basename)` is the rest of the entry name after the basename |
| Matching.PrefixCandidate | gidopen.py:583-597 | a candidate only for a name starting with the basename whose rest follows in the buffer; path, grown region, folder or file kind, excluded folders skipped |
| Matching.PrefixCandidateText | gidopen.py:583-597 | a prefix candidate's region spells the entry name |
| Matching.PrefixListing | gidopen.py:580-597 | returns `ListingCandidates` for an existing folder and nothing for a missing one; every candidate is a prefix candidate of an entry, and each entry's candidate is found, in listing order |
| Matching.ListingCandidates | gidopen.py:580-597 | the prefix candidates of the first `n` entries, in listing order |
| Matching.BasenameRegionText | gidopen.py:484-497 | the basename region lies in the buffer and spells the basename; for a bare basename it is the whole region |
| Matching.DotSlashMarked | gidopen.py:508-517 | exactly when `./` precedes the start, at the buffer start or after a non-path character |
| Matching.KeepPrefixMatch | gidopen.py:499-524 | a match is kept exactly when the walk took a folder or `./` marks it; a kept match has the grown region |
| Matching.ExtendContainsMatch | gidopen.py:488-492 | a `_search_contains` match always gets the grown region, which lies in the buffer |
| Folders.IsIn | gidopen.py:188-194 | `is_in`: the ancestor is a proper prefix followed by `/`; the source's assertion that the two differ is the requires |
| Folders.IsInTransitive | gidopen.py:188-194 | `is_in` is transitive |
| Folders.CoversTransitive | gidopen.py:232 | "equal or inside" is transitive |
| Folders.CoversChain | gidopen.py:188-194 | two different folders that both cover a name are nested in one another |
| Folders.JoinIsIn | gidopen.py:188-194 | a relative name joined under a folder lies inside it |
| Folders.RootHoldsNothing | gidopen.py:192-193 | nothing but a `//` path lies in `/`, since a second separator must follow the ancestor |
| Folders.Kept | gidopen.py:229-239 | the corrected loop: a window folder is kept unless an equal or containing folder was kept or a later window folder contains it |
| Folders.Prune | gidopen.py:229-239 | the project folders; `Folders.PruneProperties` states what they are |
| Folders.KeptInvariant | gidopen.py:229-239 | the kept list is pruned, made of window folders, and none has an ancestor still to come |
| Folders.KeptGrows | gidopen.py:229-239 | the kept list only grows by appending |
| Folders.PruneCoversFrom | gidopen.py:229-239 | every window folder is covered by a project folder |
| Folders.PruneProperties | gidopen.py:229-239 | project folders are distinct window folders, none inside another, and they cover every window folder |
| Folders.PrunedCoverUnique | gidopen.py:643-647 | over pruned folders at most one covers any name |
| Folders.LaterAncestorAsWritten | gidopen.py:235 | the test as written: `None` where `is_in` raises on a later folder equal to the one tested, reached before any ancestor; `Folders.LaterAncestorAsWrittenAgrees` relates it to the corrected test |
| Folders.LaterAncestorAsWrittenAgrees | gidopen.py:235 | when it does not raise, the test as written agrees with "a later proper ancestor"; it never raises when no later folder is equal |
| Folders.PruneAsWritten | gidopen.py:229-239 | the loop as written, with `None` where `is_in` raises; `Folders.DuplicateFolderRaises` and `Folders.PruneAsWrittenAgrees` state when it does |
| Folders.KeptAsWritten | gidopen.py:229-239 | the pruning loop as written, `None` once a step raises; `Folders.KeptAsWrittenAgrees` relates it to `Folders.Kept` |
| Folders.KeptAsWrittenAgrees | gidopen.py:229-239 | when the loop as written does not raise it keeps the corrected list, and it never raises on distinct folders |
| Folders.DuplicateFolderRaises | gidopen.py:235 | the loop as written raises on `["/w", "/w"]`, where the corrected loop keeps `["/w"]` |
| Folders.PruneAsWrittenAgrees | gidopen.py:229-239 | the pruning as written equals the corrected pruning whenever it returns, and always on distinct folders |
| Folders.BasenameCountPositive | gidopen.py:230-231 | every window folder's basename is counted at least once |
| Folders.BasenameCountTwo | gidopen.py:230-231 | two window folders with one basename count it at least twice |
| Folders.UniqueBasenameIdentifies | gidopen.py:240-243 | a basename counted once names one window folder |
| Folders.TallyStep | gidopen.py:231 | one more `count[basename] += 1` keeps the counts equal to those of the folders seen |
| Folders.ScanFolders | gidopen.py:228-243 | the loops compute the pruned folders; a folder is labelled exactly when it is kept and its basename occurs once among all window folders, and the label is that basename |
| Folders.LabelFolders | gidopen.py:240-243 | the labelling loop labels exactly the kept folders whose basename count is 1, with their basename |
| Folders.HasAncestorInAppend | gidopen.py:276-281 | scanning one more folder for a proper ancestor |
| Folders.Iterated | gidopen.py:269-287 | what `_folder_iterate` yields; `Folders.IteratedProperties` states it |
| Folders.WorkingDirectory | gidopen.py:244-258 | the working directory: the setting when it is an absolute folder, else the file's folder, else the first project folder, else home |
| Folders.IteratedProperties | gidopen.py:269-287 | the project folders in order, then the working directory once, exactly when it is no project folder and (if asked) lies in none; no base folder twice |
| Folders.FallbackNotRepeated | gidopen.py:255-287 | when the working directory falls back to the first project folder it is not yielded again |
| Folders.Context.constructor | gidopen.py:199-205 | nothing is cached |
| Folders.Context.Reset | gidopen.py:660 | drops the cached working directory and keeps the rest |
| Folders.Context.GetHome | gidopen.py:210-215 | reads `HOME` (default `/`) once and caches it |
| Folders.Context.SetupFolders | gidopen.py:217-267 | with nothing cached: pruned folders, labels, and the working directory from the setting, the file's folder, the first project folder or home; home is read only at the end of that chain |
| Folders.Context.FolderIterate | gidopen.py:269-287 | yields `Iterated` over the cached set-up state |
| Folders.Context.Shorten | gidopen.py:639-653 | returns `ShortenName` over the cached folders and labels and the cached home |
| Folders.FolderInProject | gidopen.py:631-637 | true exactly when a project folder is the name or contains it |
| Folders.InProject | gidopen.py:631-637 | every window folder, and every relative path joined under a project folder, belongs to the project |
| Folders.ShortenName | gidopen.py:639-653 | `_shorten_name`; `Folders.ShortenNameLabel`, `Folders.ShortenNameHome` and `Folders.ShortenNameUnchanged` state its three cases |
| Folders.LabelledFrom | gidopen.py:643-647 | the first project folder that covers the name and has a label, with no earlier one |
| Folders.ShortenNameLabel | gidopen.py:643-647 | a name in a labelled project folder shows as the label followed by the rest of the name |
| Folders.ShortenNameHome | gidopen.py:649-651 | otherwise a name below a home folder other than `/` shows as `~` followed by the rest |
| Folders.ShortenNameUnchanged | gidopen.py:653 | any other name is shown unchanged |
| Decision.FirstLongest | gidopen.py:70-79 | the position of the first candidate with the largest region |
| Decision.Best | gidopen.py:70-79 | the candidate `select_longest` returns; `Decision.BestProperties` states it |
| Decision.LongestFirstUnique | gidopen.py:76 | at most one position is the first longest |
| Decision.OfKind | gidopen.py:680-692 | the candidates of one kind, in order |
| Decision.SelectLongest | gidopen.py:70-79 | the loop returns the first longest candidate, or none for no candidates |
| Decision.BestProperties | gidopen.py:70-79 | none exactly for no candidates; otherwise a candidate no shorter than any other and longer than every earlier one |
| Decision.OfKindSound | gidopen.py:680-692 | a kind's list holds exactly the candidates of that kind |
| Decision.OfKindPartition | gidopen.py:680-692 | each kind's list keeps every candidate of its kind as many times as it occurs |
| Decision.Partition | gidopen.py:662-692 | the sorting loop fills one list per kind, in order |
| Decision.Decide | gidopen.py:694-735 | the menu decision; `Decision.DecidePriority` and `Decision.DecideFolder` state it |
| Decision.Choose | gidopen.py:660-734 | resets and sets up the folders again, and returns the decision `Decide` makes over the new project folders, labels and home |
| Decision.Describe | gidopen.py:658-737 | makes the choice `Choose` states and returns its menu text, `MenuText` of that choice |
| Decision.ActionName | gidopen.py:9-15 | the menu text of each action; `Decision.ActionNamesDistinct` states that no two actions share one |
| Decision.ActionNamesDistinct | gidopen.py:9-15 | two actions have the same menu text exactly when they are the same action |
| Decision.MenuText | gidopen.py:737 | `'{} {}'.format(action, label)`: the action's text or `None`, a space, then the label or `None` |
| Decision.Offer | gidopen.py:710-730 | a folder, missing file or missing folder entry: the action, the path, and the shortened path as its label |
| Decision.OfferFile | gidopen.py:694-708 | a file entry: Goto with `path:line:col` when a line follows the region, otherwise Open |
| Decision.DecidePriority | gidopen.py:694-735 | the first non-empty kind of file, folder, missing file, missing folder decides the action; text never does; with none, action, path and label are all none |
| Decision.DecideFolder | gidopen.py:710-718 | the folder offered is the first longest folder candidate, and it is revealed exactly when it belongs to the project |
| Decision.GotoFormat | gidopen.py:699-705 | the path always has `:line:col`, with col 0 when none was read; the label shows the column only when one was read |
| Decision.GotoExample | gidopen.py:694-706 | an example, not a general property: `a.py:12 x` clicked on `a.py` gives Goto `a.py:12:0` labelled `a.py:12` |
| Decision.Climb | gidopen.py:427-431 | the climb to the outermost missing folder; `Decision.ClimbProperties` states it |
| Decision.ClimbProperties | gidopen.py:427-431 | the climb stops some levels up, every folder passed is missing, and it ends at the root or below an existing folder |
| Decision.UpDirname | gidopen.py:427-431 | one more `dirname` is one more level up |
| Decision.MissingFolder | gidopen.py:427-432 | the loop computes `Climb` from the parent of the path |
| Decision.Classify | gidopen.py:419-432 | the candidate for an absolute path; `Decision.MissingFolderProperties` states the missing-folder case |
| Decision.ClassifyAbsolute | gidopen.py:419-432 | computes `Classify`: a file, a folder, a missing file in an existing folder, or the outermost missing folder |
| Decision.MissingFolderProperties | gidopen.py:424-432 | a missing folder candidate is a missing prefix of the path whose parent exists, or the root |

## Left out

- The Sublime API is not modelled: views, windows, settings, selections, the click-to-offset conversion, and storing the choice in the view settings. The buffer is a string, and the click offset and the candidates are inputs.
- The `run` dispatch and `add_folder_to_project` are not modelled. They open files, reveal folders and make directories, which are side effects in the editor and on disk.
- Directory walks are not modelled: `all_matching_descendants`, `all_files_prefixed_by`, and the recursive second half of `_search_prefix`. They traverse with `os.walk` and prune `dirnames` in place. One listing step over a given name sequence is modelled (`Matching.PrefixListing`, `Matching.FolderHits`).
- `check_absolute_path` and the relative half of `_handle_click_region` are not modelled. They feed `normpath` into the walks above. The absolute classification at gidopen.py:419-432 is modelled.
- The oddity at gidopen.py:416 is not modelled. There `isdir(path)` tests the unjoined path instead of `abspath`, in a branch that is itself left out.
- `expanduser`, `expandvars`, `normpath`, `isabs`, `isdir`, `isfile` and `listdir` are parameters. Their behaviour is library code that is not part of this model. `split`, `dirname`, `basename` and `join` are written out for `/` separators.
- Matching.SearchContains: treats `listdir` as total. The source lists each base folder without checking that it is a directory (gidopen.py:557), so a base folder that is missing raises and no menu is built, where the model finds no candidates there.
- The debug `print` calls are not modelled, and neither is the `try`/`except` re-raise in `description`.
- Decision.Describe: takes the candidate list as input rather than chaining the candidate search into it, and it sets the folders up itself. In the source, the search sets them up lazily, so with no search and no candidate the source never reads the window folders, while the model always does. For the same choice the menu text is the same (`Decision.Describe`).
- Decision.Offer and Decision.OfferFile: state the home folder cached afterwards only as "unchanged or the value `_get_home` returns", because whether `HOME` is read depends on which names reach the home test.
- Labels count basenames over all window folders, pruned ones included, as the loop at gidopen.py:229-231 counts every window folder before the pruning tests, and the labelling at gidopen.py:240-243 reads those counts.
- `Action` has no case for the `Find` action constant (gidopen.py:11), because no branch of `description` offers it.
- `{`, `}` and `%` are path characters, because the exclusion list at gidopen.py:22 leaves them out.
- `_expand_left` compares each component by its text alone and does not require a separator before it. So with `dirname` `/t/parent`, the text `/notexist/parent/present` grows the region over `t/parent/`, which stops inside `notexist`. The model keeps that behaviour (`Regions.WalkLeft`) and proves only what it guarantees: the added text spells the components (`Regions.ExpandLeftSound`).
- `is_in(x, "/")` is false for every path not starting with `//`, because the test expects a separator after the ancestor. A project folder `/` therefore contains nothing, and `Folders.RootHoldsNothing` states this as the code behaves.

## Findings

| source | as written | input that shows it | evidently intended | confidence | as-written member | corrected member |
|---|---|---|---|---|---|---|
| gidopen.py:235 | `any(is_in(folder, f) for f in window_folders[after:])` calls `is_in`, which asserts its arguments differ, on every later window folder, including one equal to `folder` | window folders `["/w", "/w"]`: at the first `/w` the later list holds `/w` again, so the assertion fails and the menu is never built | a later folder equal to `folder` is skipped, as line 232 does with `folder == f or ...`; the duplicate is dropped and the project folders are `["/w"]` | not executed; the assertion is plain Python and fires whenever a window lists one folder twice | Folders.PruneAsWritten, Folders.DuplicateFolderRaises | Folders.Prune, Folders.PruneProperties |
