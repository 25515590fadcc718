/** Matching buffer text against filesystem names: the candidates the engine
    produces, the per-name offset test of `_search_contains`, the listing step
    of `_search_prefix`, and the acceptance rule for prefix matches that gained
    no parent folder on the left. Directory listings and the `isdir`/`isfile`
    queries are parameters. */
module Matching {
  import opened PathText
  import opened PosixPath
  import opened Regions

  /** The candidate classes (`FileFound`, `FolderFound`, ...). */
  datatype Kind = FileFound | FolderFound | FileNotFound | FolderNotFound | TextFound

  /** A candidate: the buffer region it explains and the filesystem path it names. */
  datatype Candidate = Candidate(kind: Kind, region: Region, path: string)

  // ---------------------------------------------------------------------------
  // _search_contains

  /** `name` has an occurrence of `basename` at `idx`, and when that occurrence
      is aligned with the buffer offset `begin` the whole of `name` is the
      buffer text around it. */
  predicate HitAt(buf: string, begin: int, basename: string, name: string, idx: int) {
    OccursAt(basename, name, idx) && 0 <= begin - idx && begin - idx + |name| <= |buf| &&
    buf[begin - idx..begin - idx + |name|] == name
  }

  /** The buffer region a hit at `idx` covers. */
  function HitRegion(begin: int, name: string, idx: int): Region {
    Region(begin - idx, begin - idx + |name|)
  }

  /** For an occurrence at `idx`, the hit is decided by the clipped read of
      the text where the name would lie. */
  lemma HitBySubstr(buf: string, begin: nat, basename: string, name: string, idx: int)
    requires begin <= |buf| && OccursAt(basename, name, idx)
    ensures HitAt(buf, begin, basename, name, idx) <==> Substr(buf, begin - idx, begin - idx + |name|) == name
  {
    if Substr(buf, begin - idx, begin - idx + |name|) == name && |name| > 0 {
      SubstrFull(buf, begin - idx, begin - idx + |name|);
    }
  }

  /** The regions of the hits among the occurrence indices `idxs`, in order. */
  function HitsOf(buf: string, begin: int, basename: string, name: string, idxs: seq<int>): seq<Region> {
    if idxs == [] then []
    else
      var last := idxs[|idxs| - 1];
      HitsOf(buf, begin, basename, name, idxs[..|idxs| - 1]) +
      (if HitAt(buf, begin, basename, name, last) then [HitRegion(begin, name, last)] else [])
  }

  /** Every listed region comes from a hit. */
  lemma {:induction false} HitsOfSound(buf: string, begin: int, basename: string, name: string, idxs: seq<int>)
    ensures forall r :: r in HitsOf(buf, begin, basename, name, idxs) ==>
      HitAt(buf, begin, basename, name, begin - r.b) && r == HitRegion(begin, name, begin - r.b)
  {
    if idxs != [] {
      HitsOfSound(buf, begin, basename, name, idxs[..|idxs| - 1]);
    }
  }

  /** Every hit among the indices gives its region. */
  lemma {:induction false} HitsOfComplete(buf: string, begin: int, basename: string, name: string, idxs: seq<int>)
    ensures forall idx :: idx in idxs && HitAt(buf, begin, basename, name, idx) ==>
      HitRegion(begin, name, idx) in HitsOf(buf, begin, basename, name, idxs)
  {
    if idxs != [] {
      var init := idxs[..|idxs| - 1];
      HitsOfComplete(buf, begin, basename, name, init);
      assert idxs == init + [idxs[|idxs| - 1]];
    }
  }

  /** Increasing indices give regions that start right to left. */
  lemma {:induction false} HitsOfDescend(buf: string, begin: int, basename: string, name: string, idxs: seq<int>)
    requires forall k, l :: 0 <= k < l < |idxs| ==> idxs[k] < idxs[l]
    ensures StartsDescend(HitsOf(buf, begin, basename, name, idxs))
    ensures idxs != [] ==> StartsAbove(HitsOf(buf, begin, basename, name, idxs), begin - idxs[|idxs| - 1] - 1)
  {
    if idxs != [] {
      var init := idxs[..|idxs| - 1];
      var last := idxs[|idxs| - 1];
      HitsOfDescend(buf, begin, basename, name, init);
      var rs := HitsOf(buf, begin, basename, name, init);
      if init != [] {
        AboveLower(rs, begin - init[|init| - 1] - 1, begin - last);
      }
      if HitAt(buf, begin, basename, name, last) {
        DescendAppend(rs, HitRegion(begin, name, last));
      } else {
        AboveLower(rs, begin - last, begin - last - 1);
      }
    }
  }

  /** The regions start strictly right to left. */
  predicate StartsDescend(rs: seq<Region>) {
    forall m, l :: 0 <= m < l < |rs| ==> rs[m].b > rs[l].b
  }

  predicate StartsAbove(rs: seq<Region>, bound: int) {
    forall m :: 0 <= m < |rs| ==> rs[m].b > bound
  }

  lemma DescendAppend(rs: seq<Region>, r: Region)
    requires StartsDescend(rs) && StartsAbove(rs, r.b)
    ensures StartsDescend(rs + [r]) && StartsAbove(rs + [r], r.b - 1)
  {
  }

  lemma AboveLower(rs: seq<Region>, bound: int, lower: int)
    requires StartsAbove(rs, bound) && lower <= bound
    ensures StartsAbove(rs, lower)
  {
  }

  /** The hit regions of `name`, in the order `find_all` yields its
      occurrences of `basename`. */
  function NameHitsOf(buf: string, begin: int, basename: string, name: string): seq<Region> {
    HitsOf(buf, begin, basename, name, Occurrences(basename, name, 0))
  }

  /** The hit regions of a name are exactly its hits, starting right to left. */
  lemma NameHitsOfExact(buf: string, begin: int, basename: string, name: string)
    ensures forall r :: r in NameHitsOf(buf, begin, basename, name) ==>
      HitAt(buf, begin, basename, name, begin - r.b) && r == HitRegion(begin, name, begin - r.b)
    ensures forall idx :: HitAt(buf, begin, basename, name, idx) ==>
      HitRegion(begin, name, idx) in NameHitsOf(buf, begin, basename, name)
    ensures StartsDescend(NameHitsOf(buf, begin, basename, name))
  {
    var idxs := Occurrences(basename, name, 0);
    OccurrencesExact(basename, name, 0);
    HitsOfSound(buf, begin, basename, name, idxs);
    HitsOfComplete(buf, begin, basename, name, idxs);
    HitsOfDescend(buf, begin, basename, name, idxs);
    HitsComplete(buf, begin, basename, name, idxs, NameHitsOf(buf, begin, basename, name));
  }

  /** The per-name offset test of `_search_contains`: for every occurrence of
      `basename` in `name` (by `find_all`), the region of the buffer that would
      hold `name` if that occurrence were the one at `begin`, kept when the
      buffer text there is `name`. Exactly the hits, in `find_all` order, so
      leftmost-aligned last. */
  method NameHits(buf: string, begin: nat, basename: string, name: string) returns (rs: seq<Region>)
    requires begin <= |buf|
    ensures rs == NameHitsOf(buf, begin, basename, name)
    ensures forall r :: r in rs ==>
      HitAt(buf, begin, basename, name, begin - r.b) && r == HitRegion(begin, name, begin - r.b)
    ensures forall idx :: HitAt(buf, begin, basename, name, idx) ==> HitRegion(begin, name, idx) in rs
    ensures StartsDescend(rs)
  {
    var idxs := FindAll(basename, name);
    rs := HitsAlong(buf, begin, basename, name, idxs);
    NameHitsOfExact(buf, begin, basename, name);
  }

  /** The offset loop of `_search_contains` for one name over the occurrence
      offsets `idxs` that `find_all` yields: the region for each offset whose
      buffer text is `name`, in offset order. */
  method HitsAlong(buf: string, begin: nat, basename: string, name: string, idxs: seq<nat>)
    returns (rs: seq<Region>)
    requires begin <= |buf|
    requires forall k :: 0 <= k < |idxs| ==> OccursAt(basename, name, idxs[k])
    ensures rs == HitsOf(buf, begin, basename, name, idxs)
  {
    rs := [];
    var k := 0;
    while k < |idxs|
      invariant 0 <= k <= |idxs|
      invariant rs == HitsOf(buf, begin, basename, name, idxs[..k])
    {
      var idx := idxs[k];
      var textStart := begin - idx;
      var textEnd := textStart + |name|;
      assert idxs[..k + 1][..k] == idxs[..k];
      HitBySubstr(buf, begin, basename, name, idx);
      if Substr(buf, textStart, textEnd) == name {
        rs := rs + [Region(textStart, textEnd)];
      }
      k := k + 1;
    }
    assert idxs[..k] == idxs;
  }

  /** Every hit is among the regions when every occurrence index is listed
      and every listed hit gave its region. */
  lemma HitsComplete(buf: string, begin: int, basename: string, name: string, idxs: seq<nat>, rs: seq<Region>)
    requires forall i: nat :: i in idxs <==> OccursAt(basename, name, i)
    requires forall idx :: idx in idxs && HitAt(buf, begin, basename, name, idx) ==> HitRegion(begin, name, idx) in rs
    ensures forall idx :: HitAt(buf, begin, basename, name, idx) ==> HitRegion(begin, name, idx) in rs
  {
    forall idx | HitAt(buf, begin, basename, name, idx)
      ensures HitRegion(begin, name, idx) in rs
    {
      var i: nat := idx;
      assert i in idxs;
    }
  }

  /** What `_search_contains` yields for the hit of `name`, listed in `folder`,
      at `idx`: a folder if the joined path is a directory, else a file if it is
      a file, else nothing. */
  function ContainsCandidate(begin: int, folder: string, name: string, idx: int,
                             isDir: string -> bool, isFile: string -> bool): (r: Option<Candidate>)
    ensures r.Some? <==> isDir(Join(folder, name)) || isFile(Join(folder, name))
    ensures r.Some? ==> r.value.path == Join(folder, name) && r.value.region == HitRegion(begin, name, idx)
    ensures r.Some? ==> (r.value.kind == FolderFound <==> isDir(Join(folder, name)))
    ensures r.Some? ==> r.value.kind in {FolderFound, FileFound}
  {
    var path := Join(folder, name);
    if isDir(path) then Some(Candidate(FolderFound, HitRegion(begin, name, idx), path))
    else if isFile(path) then Some(Candidate(FileFound, HitRegion(begin, name, idx), path))
    else None
  }

  /** Every candidate in `cs` is the contains-candidate of a hit of one of the
      first `n` entries of the listing `names` of `folder`. */
  ghost predicate FolderSound(cs: seq<Candidate>, buf: string, begin: int, basename: string, folder: string,
                              names: seq<string>, isDir: string -> bool, isFile: string -> bool, n: int) {
    forall c :: c in cs ==>
      exists j, idx ::
        0 <= j < n && j < |names| && HitAt(buf, begin, basename, names[j], idx) &&
        ContainsCandidate(begin, folder, names[j], idx, isDir, isFile) == Some(c)
  }

  /** Every hit of one of the first `n` entries that exists gives its
      candidate in `cs`. */
  ghost predicate FolderComplete(cs: seq<Candidate>, buf: string, begin: int, basename: string, folder: string,
                                 names: seq<string>, isDir: string -> bool, isFile: string -> bool, n: int) {
    forall j, idx ::
      (0 <= j < n && j < |names| && HitAt(buf, begin, basename, names[j], idx) &&
       ContainsCandidate(begin, folder, names[j], idx, isDir, isFile).Some?) ==>
      ContainsCandidate(begin, folder, names[j], idx, isDir, isFile).value in cs
  }

  /** The candidates `found` for one entry are exactly its contains-candidates. */
  ghost predicate EntryExact(found: seq<Candidate>, buf: string, begin: int, basename: string, folder: string,
                             name: string, isDir: string -> bool, isFile: string -> bool) {
    (forall c :: c in found ==>
       exists idx ::
         HitAt(buf, begin, basename, name, idx) &&
         ContainsCandidate(begin, folder, name, idx, isDir, isFile) == Some(c)) &&
    (forall idx ::
       (HitAt(buf, begin, basename, name, idx) &&
        ContainsCandidate(begin, folder, name, idx, isDir, isFile).Some?) ==>
       ContainsCandidate(begin, folder, name, idx, isDir, isFile).value in found)
  }

  /** Adding the candidates of entry `j` extends both properties to `j + 1`. */
  lemma FolderHitsStep(cs: seq<Candidate>, found: seq<Candidate>, buf: string, begin: int, basename: string,
                       folder: string, names: seq<string>, isDir: string -> bool, isFile: string -> bool, j: nat)
    requires j < |names|
    requires FolderSound(cs, buf, begin, basename, folder, names, isDir, isFile, j)
    requires FolderComplete(cs, buf, begin, basename, folder, names, isDir, isFile, j)
    requires EntryExact(found, buf, begin, basename, folder, names[j], isDir, isFile)
    ensures FolderSound(cs + found, buf, begin, basename, folder, names, isDir, isFile, j + 1)
    ensures FolderComplete(cs + found, buf, begin, basename, folder, names, isDir, isFile, j + 1)
  {
    forall c | c in cs + found
      ensures exists j', idx ::
        0 <= j' < j + 1 && j' < |names| && HitAt(buf, begin, basename, names[j'], idx) &&
        ContainsCandidate(begin, folder, names[j'], idx, isDir, isFile) == Some(c)
    {
      if c in cs {
        var j', idx :| 0 <= j' < j && j' < |names| && HitAt(buf, begin, basename, names[j'], idx) &&
          ContainsCandidate(begin, folder, names[j'], idx, isDir, isFile) == Some(c);
      } else {
        assert c in found;
        var idx :| HitAt(buf, begin, basename, names[j], idx) &&
          ContainsCandidate(begin, folder, names[j], idx, isDir, isFile) == Some(c);
      }
    }
    forall j', idx | 0 <= j' < j + 1 && j' < |names| && HitAt(buf, begin, basename, names[j'], idx) &&
                     ContainsCandidate(begin, folder, names[j'], idx, isDir, isFile).Some?
      ensures ContainsCandidate(begin, folder, names[j'], idx, isDir, isFile).value in cs + found
    {
      if j' < j {
        assert ContainsCandidate(begin, folder, names[j'], idx, isDir, isFile).value in cs;
      } else {
        assert ContainsCandidate(begin, folder, names[j], idx, isDir, isFile).value in found;
      }
    }
  }

  /** What `_search_contains` yields for the entry `name` of `folder`: one
      candidate per hit region, in `find_all` order, all of the kind of the
      joined path; nothing when that path is neither a folder nor a file. */
  function EntryCandidates(buf: string, begin: int, basename: string, folder: string, name: string,
                           isDir: string -> bool, isFile: string -> bool): seq<Candidate> {
    var path := Join(folder, name);
    if isDir(path) || isFile(path) then
      var rs := NameHitsOf(buf, begin, basename, name);
      Tagged(if isDir(path) then FolderFound else FileFound, rs, path)
    else []
  }

  /** One candidate of kind `kind` for `path` per region of `rs`, in order. */
  function Tagged(kind: Kind, rs: seq<Region>, path: string): (cs: seq<Candidate>)
    ensures |cs| == |rs| && forall m :: 0 <= m < |rs| ==> cs[m] == Candidate(kind, rs[m], path)
  {
    seq(|rs|, m requires 0 <= m < |rs| => Candidate(kind, rs[m], path))
  }

  /** The candidates of the first `n` entries of the listing `names`, in
      listing order. */
  function FolderCandidates(buf: string, begin: int, basename: string, folder: string, names: seq<string>,
                            isDir: string -> bool, isFile: string -> bool, n: nat): seq<Candidate>
    requires n <= |names|
  {
    if n == 0 then []
    else FolderCandidates(buf, begin, basename, folder, names, isDir, isFile, n - 1) +
         EntryCandidates(buf, begin, basename, folder, names[n - 1], isDir, isFile)
  }

  /** An entry's candidates are exactly its contains-candidates. */
  lemma EntryCandidatesExact(buf: string, begin: int, basename: string, folder: string, name: string,
                             isDir: string -> bool, isFile: string -> bool)
    ensures EntryExact(EntryCandidates(buf, begin, basename, folder, name, isDir, isFile),
                       buf, begin, basename, folder, name, isDir, isFile)
  {
    NameHitsOfExact(buf, begin, basename, name);
    FoundCandidates(buf, begin, basename, folder, name, isDir, isFile, NameHitsOf(buf, begin, basename, name),
                    EntryCandidates(buf, begin, basename, folder, name, isDir, isFile));
  }


  /** The candidates of one more entry follow those of the entries before it. */
  lemma FolderCandidatesNext(buf: string, begin: int, basename: string, folder: string, names: seq<string>,
                             isDir: string -> bool, isFile: string -> bool, j: nat, cs: seq<Candidate>,
                             found: seq<Candidate>)
    requires j < |names|
    requires cs == FolderCandidates(buf, begin, basename, folder, names, isDir, isFile, j)
    requires found == EntryCandidates(buf, begin, basename, folder, names[j], isDir, isFile)
    ensures cs + found == FolderCandidates(buf, begin, basename, folder, names, isDir, isFile, j + 1)
  {
  }

  /** The inner loop of `_search_contains` over the listing `names` of one
      folder: the candidates of each entry in listing order, so every
      candidate comes from a hit, and every hit of an existing entry gives its
      candidate. */
  method FolderHits(buf: string, begin: nat, basename: string, folder: string, names: seq<string>,
                    isDir: string -> bool, isFile: string -> bool) returns (cs: seq<Candidate>)
    requires begin <= |buf|
    ensures cs == FolderCandidates(buf, begin, basename, folder, names, isDir, isFile, |names|)
    ensures FolderSound(cs, buf, begin, basename, folder, names, isDir, isFile, |names|)
    ensures FolderComplete(cs, buf, begin, basename, folder, names, isDir, isFile, |names|)
  {
    cs := [];
    var j := 0;
    while j < |names|
      invariant 0 <= j <= |names|
      invariant cs == FolderCandidates(buf, begin, basename, folder, names, isDir, isFile, j)
      invariant FolderSound(cs, buf, begin, basename, folder, names, isDir, isFile, j)
      invariant FolderComplete(cs, buf, begin, basename, folder, names, isDir, isFile, j)
    {
      var name := names[j];
      var fullpath := Join(folder, name);
      var rs := NameHits(buf, begin, basename, name);
      var found: seq<Candidate> := [];
      if isDir(fullpath) || isFile(fullpath) {
        var kind := if isDir(fullpath) then FolderFound else FileFound;
        found := Tagged(kind, rs, fullpath);
      }
      FoundCandidates(buf, begin, basename, folder, name, isDir, isFile, rs, found);
      FolderHitsStep(cs, found, buf, begin, basename, folder, names, isDir, isFile, j);
      FolderCandidatesNext(buf, begin, basename, folder, names, isDir, isFile, j, cs, found);
      cs := cs + found;
      j := j + 1;
    }
  }

  /** The candidates built for one entry from its hit regions are exactly its
      contains-candidates. */
  lemma FoundCandidates(buf: string, begin: int, basename: string, folder: string, name: string,
                        isDir: string -> bool, isFile: string -> bool, rs: seq<Region>, found: seq<Candidate>)
    requires forall r :: r in rs ==>
      HitAt(buf, begin, basename, name, begin - r.b) && r == HitRegion(begin, name, begin - r.b)
    requires forall idx :: HitAt(buf, begin, basename, name, idx) ==> HitRegion(begin, name, idx) in rs
    requires !(isDir(Join(folder, name)) || isFile(Join(folder, name))) ==> found == []
    requires isDir(Join(folder, name)) || isFile(Join(folder, name)) ==>
      found == Tagged(if isDir(Join(folder, name)) then FolderFound else FileFound, rs, Join(folder, name))
    ensures EntryExact(found, buf, begin, basename, folder, name, isDir, isFile)
  {
    var path := Join(folder, name);
    if isDir(path) || isFile(path) {
      var kind := if isDir(path) then FolderFound else FileFound;
      assert |found| == |rs|;
      assert forall m :: 0 <= m < |rs| ==> found[m] == Candidate(kind, rs[m], path);
      forall c | c in found
        ensures exists idx ::
                  HitAt(buf, begin, basename, name, idx) &&
                  ContainsCandidate(begin, folder, name, idx, isDir, isFile) == Some(c)
      {
        var m :| 0 <= m < |found| && found[m] == c;
        assert rs[m] in rs;
        var idx := begin - rs[m].b;
        assert ContainsCandidate(begin, folder, name, idx, isDir, isFile) == Some(c);
      }
      forall idx | HitAt(buf, begin, basename, name, idx) && ContainsCandidate(begin, folder, name, idx, isDir, isFile).Some?
        ensures ContainsCandidate(begin, folder, name, idx, isDir, isFile).value in found
      {
        var m :| 0 <= m < |rs| && rs[m] == HitRegion(begin, name, idx);
        assert found[m] == ContainsCandidate(begin, folder, name, idx, isDir, isFile).value;
      }
    }
  }

  /** Every candidate in `cs` is the contains-candidate of a hit of an entry
      listed in one of the first `n` folders. */
  ghost predicate SearchSound(cs: seq<Candidate>, buf: string, begin: int, basename: string, folders: seq<string>,
                              listdir: string -> seq<string>, isDir: string -> bool, isFile: string -> bool, n: int) {
    forall c :: c in cs ==>
      exists i, j, idx ::
        0 <= i < n && i < |folders| && 0 <= j < |listdir(folders[i])| &&
        HitAt(buf, begin, basename, listdir(folders[i])[j], idx) &&
        ContainsCandidate(begin, folders[i], listdir(folders[i])[j], idx, isDir, isFile) == Some(c)
  }

  /** Every hit of an existing entry listed in one of the first `n` folders
      gives its candidate in `cs`. */
  ghost predicate SearchComplete(cs: seq<Candidate>, buf: string, begin: int, basename: string, folders: seq<string>,
                                 listdir: string -> seq<string>, isDir: string -> bool, isFile: string -> bool, n: int) {
    forall i, j, idx ::
      (0 <= i < n && i < |folders| && 0 <= j < |listdir(folders[i])| &&
       HitAt(buf, begin, basename, listdir(folders[i])[j], idx) &&
       ContainsCandidate(begin, folders[i], listdir(folders[i])[j], idx, isDir, isFile).Some?) ==>
      ContainsCandidate(begin, folders[i], listdir(folders[i])[j], idx, isDir, isFile).value in cs
  }

  /** Adding the candidates of folder `i` extends both properties to `i + 1`. */
  lemma SearchStep(cs: seq<Candidate>, found: seq<Candidate>, buf: string, begin: int, basename: string,
                   folders: seq<string>, listdir: string -> seq<string>, isDir: string -> bool, isFile: string -> bool,
                   i: nat)
    requires i < |folders|
    requires SearchSound(cs, buf, begin, basename, folders, listdir, isDir, isFile, i)
    requires SearchComplete(cs, buf, begin, basename, folders, listdir, isDir, isFile, i)
    requires FolderSound(found, buf, begin, basename, folders[i], listdir(folders[i]), isDir, isFile, |listdir(folders[i])|)
    requires FolderComplete(found, buf, begin, basename, folders[i], listdir(folders[i]), isDir, isFile, |listdir(folders[i])|)
    ensures SearchSound(cs + found, buf, begin, basename, folders, listdir, isDir, isFile, i + 1)
    ensures SearchComplete(cs + found, buf, begin, basename, folders, listdir, isDir, isFile, i + 1)
  {
    forall c | c in cs + found
      ensures exists i', j, idx ::
        0 <= i' < i + 1 && i' < |folders| && 0 <= j < |listdir(folders[i'])| &&
        HitAt(buf, begin, basename, listdir(folders[i'])[j], idx) &&
        ContainsCandidate(begin, folders[i'], listdir(folders[i'])[j], idx, isDir, isFile) == Some(c)
    {
      if c in cs {
        var i', j, idx :| 0 <= i' < i && i' < |folders| && 0 <= j < |listdir(folders[i'])| &&
          HitAt(buf, begin, basename, listdir(folders[i'])[j], idx) &&
          ContainsCandidate(begin, folders[i'], listdir(folders[i'])[j], idx, isDir, isFile) == Some(c);
      } else {
        assert c in found;
        var j, idx :| 0 <= j < |listdir(folders[i])| &&
          HitAt(buf, begin, basename, listdir(folders[i])[j], idx) &&
          ContainsCandidate(begin, folders[i], listdir(folders[i])[j], idx, isDir, isFile) == Some(c);
      }
    }
    forall i', j, idx | 0 <= i' < i + 1 && i' < |folders| && 0 <= j < |listdir(folders[i'])| &&
                        HitAt(buf, begin, basename, listdir(folders[i'])[j], idx) &&
                        ContainsCandidate(begin, folders[i'], listdir(folders[i'])[j], idx, isDir, isFile).Some?
      ensures ContainsCandidate(begin, folders[i'], listdir(folders[i'])[j], idx, isDir, isFile).value in cs + found
    {
      if i' < i {
        assert ContainsCandidate(begin, folders[i'], listdir(folders[i'])[j], idx, isDir, isFile).value in cs;
      } else {
        assert ContainsCandidate(begin, folders[i], listdir(folders[i])[j], idx, isDir, isFile).value in found;
      }
    }
  }

  /** The candidates of the first `n` base folders, in folder order. */
  function SearchCandidates(buf: string, begin: int, basename: string, folders: seq<string>,
                            listdir: string -> seq<string>, isDir: string -> bool, isFile: string -> bool,
                            n: nat): seq<Candidate>
    requires n <= |folders|
  {
    if n == 0 then []
    else SearchCandidates(buf, begin, basename, folders, listdir, isDir, isFile, n - 1) +
         FolderCandidates(buf, begin, basename, folders[n - 1], listdir(folders[n - 1]), isDir, isFile,
                          |listdir(folders[n - 1])|)
  }


  /** The candidates of one more base folder follow those of the folders
      before it. */
  lemma SearchCandidatesNext(buf: string, begin: int, basename: string, folders: seq<string>,
                             listdir: string -> seq<string>, isDir: string -> bool, isFile: string -> bool,
                             i: nat, cs: seq<Candidate>, found: seq<Candidate>)
    requires i < |folders|
    requires cs == SearchCandidates(buf, begin, basename, folders, listdir, isDir, isFile, i)
    requires found == FolderCandidates(buf, begin, basename, folders[i], listdir(folders[i]), isDir, isFile,
                                       |listdir(folders[i])|)
    ensures cs + found == SearchCandidates(buf, begin, basename, folders, listdir, isDir, isFile, i + 1)
  {
  }

  /** `_search_contains` over the folders `_folder_iterate` gives, with
      `listdir` standing for the directory listings: the candidates of each
      folder in turn, in folder order. The descent into matching folders
      (`all_matching_descendants`) is not part of this model. */
  method SearchContains(buf: string, region: Region, basename: string, folders: seq<string>,
                        listdir: string -> seq<string>, isDir: string -> bool, isFile: string -> bool)
    returns (cs: seq<Candidate>)
    requires region.Within(buf)
    ensures cs == SearchCandidates(buf, region.b, basename, folders, listdir, isDir, isFile, |folders|)
    ensures forall c :: c in cs ==> c.region.Within(buf) && c.kind in {FolderFound, FileFound}
    ensures SearchSound(cs, buf, region.b, basename, folders, listdir, isDir, isFile, |folders|)
    ensures SearchComplete(cs, buf, region.b, basename, folders, listdir, isDir, isFile, |folders|)
  {
    var begin: nat := region.b;
    cs := [];
    var i := 0;
    while i < |folders|
      invariant 0 <= i <= |folders|
      invariant cs == SearchCandidates(buf, begin, basename, folders, listdir, isDir, isFile, i)
      invariant SearchSound(cs, buf, begin, basename, folders, listdir, isDir, isFile, i)
      invariant SearchComplete(cs, buf, begin, basename, folders, listdir, isDir, isFile, i)
    {
      var found := FolderHits(buf, begin, basename, folders[i], listdir(folders[i]), isDir, isFile);
      SearchStep(cs, found, buf, begin, basename, folders, listdir, isDir, isFile, i);
      SearchCandidatesNext(buf, begin, basename, folders, listdir, isDir, isFile, i, cs, found);
      cs := cs + found;
      i := i + 1;
    }
    SearchSoundWithin(cs, buf, region, basename, folders, listdir, isDir, isFile);
  }

  /** A sound contains-search result lies inside the buffer and names found
      folders and files only. */
  lemma SearchSoundWithin(cs: seq<Candidate>, buf: string, region: Region, basename: string, folders: seq<string>,
                          listdir: string -> seq<string>, isDir: string -> bool, isFile: string -> bool)
    requires region.Within(buf)
    requires SearchSound(cs, buf, region.b, basename, folders, listdir, isDir, isFile, |folders|)
    ensures forall c :: c in cs ==> c.region.Within(buf) && c.kind in {FolderFound, FileFound}
  {
    forall c | c in cs
      ensures c.region.Within(buf) && c.kind in {FolderFound, FileFound}
    {
      var i', j, idx :| 0 <= i' < |folders| && 0 <= j < |listdir(folders[i'])| &&
        HitAt(buf, region.b, basename, listdir(folders[i'])[j], idx) &&
        ContainsCandidate(region.b, folders[i'], listdir(folders[i'])[j], idx, isDir, isFile) == Some(c);
    }
  }

  /** A candidate of `_search_contains` covers buffer text that is exactly the
      name of the entry it found, and that text holds `basename` at `begin`. */
  lemma ContainsCandidateText(buf: string, begin: int, basename: string, folder: string, name: string, idx: int,
                              isDir: string -> bool, isFile: string -> bool)
    requires HitAt(buf, begin, basename, name, idx)
    requires ContainsCandidate(begin, folder, name, idx, isDir, isFile).Some?
    ensures var c := ContainsCandidate(begin, folder, name, idx, isDir, isFile).value;
      c.region.Within(buf) && buf[c.region.b..c.region.e] == name &&
      c.region.b <= begin && begin + |basename| <= c.region.e &&
      buf[begin..begin + |basename|] == basename
  {
    var s := begin - idx;
    forall t | 0 <= t < |basename|
      ensures buf[begin + t] == basename[t]
    {
      assert buf[begin + t] == buf[s..s + |name|][idx + t] == name[idx..idx + |basename|][t];
    }
  }

  // ---------------------------------------------------------------------------
  // _search_prefix, first half: the listing of each folder

  /** The text `_search_prefix` expects after the basename for the entry
      `name` of `folder`: the joined path with the joined prefix cut off. */
  function Suffix(folder: string, basename: string, name: string): string {
    var path := Join(folder, name);
    var prefix := Join(folder, basename);
    if |prefix| <= |path| then path[|prefix|..] else []
  }

  /** For an ordinary entry name that starts with `basename`, the expected
      suffix is the rest of the name. */
  lemma SuffixIsRestOfName(folder: string, basename: string, name: string)
    requires |basename| <= |name| && name[..|basename|] == basename
    requires name == [] || name[0] != '/'
    ensures Suffix(folder, basename, name) == name[|basename|..]
  {
    var rest := name[|basename|..];
    assert name == basename + rest;
    var head := Join(folder, []);
    JoinRelative(folder, name);
    JoinRelative(folder, basename);
    assert Join(folder, name) == (head + basename) + rest;
  }

  /** Joining a name that does not start with `/` appends it to what joining
      the empty name gives. */
  lemma JoinRelative(folder: string, name: string)
    requires name == [] || name[0] != '/'
    ensures Join(folder, name) == Join(folder, []) + name
  {
  }

  /** What the listing step of `_search_prefix` yields for the entry `name` of
      `folder`: nothing unless the name starts with `basename` and the buffer
      continues with the rest of it; then a folder (unless its name is
      excluded) when it is a directory, and a file otherwise. */
  function PrefixCandidate(buf: string, region: Region, basename: string, folder: string, name: string,
                           isDir: string -> bool, excludes: set<string>): (r: Option<Candidate>)
    requires region.Within(buf)
    ensures r.Some? ==> |basename| <= |name| && name[..|basename|] == basename
    ensures r.Some? ==> r.value.path == Join(folder, name)
    ensures r.Some? ==> r.value.region == Region(region.b, region.e + |Suffix(folder, basename, name)|)
    ensures r.Some? ==> r.value.region.Within(buf) && buf[region.e..r.value.region.e] == Suffix(folder, basename, name)
    ensures r.Some? ==> (r.value.kind == FolderFound <==> isDir(Join(folder, name)))
    ensures r.Some? ==> r.value.kind in {FolderFound, FileFound}
    ensures r.Some? && isDir(Join(folder, name)) ==> name !in excludes
  {
    if |basename| <= |name| && name[..|basename|] == basename then
      var path := Join(folder, name);
      var cregion := ExpandRight(buf, region, Suffix(folder, basename, name));
      if cregion.None? then None
      else if isDir(path) then (if name in excludes then None else Some(Candidate(FolderFound, cregion.value, path)))
      else Some(Candidate(FileFound, cregion.value, path))
    else None
  }

  /** When the region holds `basename`, a prefix candidate covers exactly the
      text of the entry name. */
  lemma PrefixCandidateText(buf: string, region: Region, basename: string, folder: string, name: string,
                            isDir: string -> bool, excludes: set<string>)
    requires region.Within(buf) && buf[region.b..region.e] == basename
    requires name == [] || name[0] != '/'
    requires PrefixCandidate(buf, region, basename, folder, name, isDir, excludes).Some?
    ensures var c := PrefixCandidate(buf, region, basename, folder, name, isDir, excludes).value;
      buf[c.region.b..c.region.e] == name
  {
    var c := PrefixCandidate(buf, region, basename, folder, name, isDir, excludes).value;
    SuffixIsRestOfName(folder, basename, name);
    assert buf[c.region.b..c.region.e] == buf[region.b..region.e] + buf[region.e..c.region.e];
    assert name == name[..|basename|] + name[|basename|..];
  }

  /** Every candidate in `cs` is the prefix candidate of one of the first `n`
      entries of `names`. */
  ghost predicate ListingSound(cs: seq<Candidate>, buf: string, region: Region, basename: string, folder: string,
                               names: seq<string>, isDir: string -> bool, excludes: set<string>, n: int)
    requires region.Within(buf)
  {
    forall c :: c in cs ==>
      exists j ::
        0 <= j < n && j < |names| && PrefixCandidate(buf, region, basename, folder, names[j], isDir, excludes) == Some(c)
  }

  /** The prefix candidate of each of the first `n` entries, when there is one,
      is in `cs`. */
  ghost predicate ListingComplete(cs: seq<Candidate>, buf: string, region: Region, basename: string, folder: string,
                                  names: seq<string>, isDir: string -> bool, excludes: set<string>, n: int)
    requires region.Within(buf)
  {
    forall j ::
      (0 <= j < n && j < |names| && PrefixCandidate(buf, region, basename, folder, names[j], isDir, excludes).Some?) ==>
      PrefixCandidate(buf, region, basename, folder, names[j], isDir, excludes).value in cs
  }

  /** Adding the prefix candidate of entry `j` extends both properties to `j + 1`. */
  lemma ListingStep(cs: seq<Candidate>, found: Option<Candidate>, buf: string, region: Region, basename: string,
                    folder: string, names: seq<string>, isDir: string -> bool, excludes: set<string>, j: nat)
    requires region.Within(buf) && j < |names|
    requires ListingSound(cs, buf, region, basename, folder, names, isDir, excludes, j)
    requires ListingComplete(cs, buf, region, basename, folder, names, isDir, excludes, j)
    requires found == PrefixCandidate(buf, region, basename, folder, names[j], isDir, excludes)
    ensures var cs' := if found.Some? then cs + [found.value] else cs;
      ListingSound(cs', buf, region, basename, folder, names, isDir, excludes, j + 1) &&
      ListingComplete(cs', buf, region, basename, folder, names, isDir, excludes, j + 1)
  {
    var cs' := if found.Some? then cs + [found.value] else cs;
    forall c | c in cs'
      ensures exists j' ::
        0 <= j' < j + 1 && j' < |names| && PrefixCandidate(buf, region, basename, folder, names[j'], isDir, excludes) == Some(c)
    {
      if c !in cs {
        assert PrefixCandidate(buf, region, basename, folder, names[j], isDir, excludes) == Some(c);
      }
    }
  }

  /** The prefix candidates of the first `n` entries, in listing order. */
  function ListingCandidates(buf: string, region: Region, basename: string, folder: string, names: seq<string>,
                             isDir: string -> bool, excludes: set<string>, n: nat): seq<Candidate>
    requires region.Within(buf) && n <= |names|
  {
    if n == 0 then []
    else
      var found := PrefixCandidate(buf, region, basename, folder, names[n - 1], isDir, excludes);
      ListingCandidates(buf, region, basename, folder, names, isDir, excludes, n - 1) +
      (if found.Some? then [found.value] else [])
  }


  /** The listing loop of `_search_prefix` for one folder: nothing when the
      folder is not a directory, else the prefix candidate of each entry, in
      listing order. */
  method PrefixListing(buf: string, region: Region, basename: string, folder: string, names: seq<string>,
                       isDir: string -> bool, excludes: set<string>) returns (cs: seq<Candidate>)
    requires region.Within(buf)
    ensures cs == if isDir(folder) then ListingCandidates(buf, region, basename, folder, names, isDir, excludes, |names|)
                  else []
    ensures ListingSound(cs, buf, region, basename, folder, names, isDir, excludes, |names|)
    ensures isDir(folder) ==> ListingComplete(cs, buf, region, basename, folder, names, isDir, excludes, |names|)
  {
    cs := [];
    if !isDir(folder) {
      return;
    }
    var prefix := Join(folder, basename);
    var j := 0;
    while j < |names|
      invariant 0 <= j <= |names|
      invariant cs == ListingCandidates(buf, region, basename, folder, names, isDir, excludes, j)
      invariant ListingSound(cs, buf, region, basename, folder, names, isDir, excludes, j)
      invariant ListingComplete(cs, buf, region, basename, folder, names, isDir, excludes, j)
    {
      var name := names[j];
      var found: Option<Candidate> := None;
      if |basename| <= |name| && name[..|basename|] == basename {
        var path := Join(folder, name);
        var suffix := if |prefix| <= |path| then path[|prefix|..] else [];
        assert suffix == Suffix(folder, basename, name);
        var cregion := ExpandRight(buf, region, suffix);
        if cregion.Some? {
          if isDir(path) {
            if name !in excludes {
              found := Some(Candidate(FolderFound, cregion.value, path));
            }
          } else {
            found := Some(Candidate(FileFound, cregion.value, path));
          }
        }
      }
      assert found == PrefixCandidate(buf, region, basename, folder, name, isDir, excludes);
      ListingStep(cs, found, buf, region, basename, folder, names, isDir, excludes, j);
      ListingCandidatesNext(buf, region, basename, folder, names, isDir, excludes, j, cs);
      if found.Some? {
        cs := cs + [found.value];
      }
      j := j + 1;
    }
  }

  /** The prefix candidate of one more entry, if any, follows those of the
      entries before it. */
  lemma ListingCandidatesNext(buf: string, region: Region, basename: string, folder: string, names: seq<string>,
                              isDir: string -> bool, excludes: set<string>, j: nat, cs: seq<Candidate>)
    requires region.Within(buf) && j < |names|
    requires cs == ListingCandidates(buf, region, basename, folder, names, isDir, excludes, j)
    ensures var found := PrefixCandidate(buf, region, basename, folder, names[j], isDir, excludes);
      (if found.Some? then cs + [found.value] else cs) ==
      ListingCandidates(buf, region, basename, folder, names, isDir, excludes, j + 1)
  {
    assert cs + [] == cs;
  }

  // ---------------------------------------------------------------------------
  // _handle_click_point: which search runs, and what is kept

  /** The region searched for names: the final component of the path at the
      end of the click region. When the path is a bare name it is the whole
      click region. */
  function BasenameRegion(region: Region, path: string): Region {
    Region(region.e - |Basename(path)|, region.e)
  }

  /** The searched region holds exactly the final component of the path; it is
      the whole click region when the path is a bare name. */
  lemma BasenameRegionText(buf: string, region: Region, path: string)
    requires region.Within(buf) && buf[region.b..region.e] == path
    ensures BasenameRegion(region, path).Within(buf)
    ensures buf[BasenameRegion(region, path).b..region.e] == Basename(path)
    ensures Basename(path) == path ==> BasenameRegion(region, path) == region
  {
    SplitShape(path);
    var k := |Basename(path)|;
    assert buf[region.e - k..region.e] == buf[region.b..region.e][|path| - k..];
  }

  /** The `./` mark that makes `_handle_click_point` keep a prefix match that
      gained no parent folder: the match starts right after `./`, which is at
      the start of the buffer or after a character that is not a path
      character. */
  function DotSlashMarked(buf: string, begin: int): (r: bool)
    requires 0 <= begin <= |buf|
    ensures r <==> (begin >= 2 && buf[begin - 2..begin] == "./" &&
                    (begin == 2 || !IsLikelyPathChar(buf[begin - 3])))
  {
    if begin == 2 then Substr(buf, 0, 2) == "./"
    else if begin > 2 then
      var s := Substr(buf, begin - 3, begin);
      assert s[1..] == buf[begin - 2..begin];
      s[1..] == "./" && !IsLikelyPathChar(s[0])
    else false
  }

  /** The treatment of a `_search_prefix` candidate in `_handle_click_point`:
      its region is grown left over the parent folders of its path; it is kept
      when that took at least one folder, or when it is marked by `./`. */
  method KeepPrefixMatch(buf: string, c: Candidate) returns (r: Option<Candidate>)
    requires c.region.Within(buf)
    ensures var start := LeftStart(buf, c.region, Dirname(c.path));
      (r.Some? <==> start < c.region.b || DotSlashMarked(buf, c.region.b)) &&
      (r.Some? ==> r.value == c.(region := Region(start, c.region.e)))
  {
    var region := ExpandLeft(buf, c.region, Dirname(c.path));
    if region == c.region {
      if DotSlashMarked(buf, region.b) {
        r := Some(c);
      } else {
        r := None;
      }
    } else {
      r := Some(c.(region := region));
    }
  }

  /** The treatment of a `_search_contains` candidate: its region is grown left
      over the parent folders of its path, unconditionally. */
  method ExtendContainsMatch(buf: string, c: Candidate) returns (r: Candidate)
    requires c.region.Within(buf)
    ensures r == c.(region := Region(LeftStart(buf, c.region, Dirname(c.path)), c.region.e))
    ensures r.region.b <= c.region.b && r.region.Within(buf)
  {
    var region := ExpandLeft(buf, c.region, Dirname(c.path));
    r := c.(region := region);
  }
}
