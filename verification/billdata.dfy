/**
 * The bill-metadata aggregator of `scripts/billdata.py`: recognising a bill's top-level directory
 * in the congress data tree, walking the tree, normalising `bill_id` into the
 * congress-type-number key, projecting titles and cosponsors out of a bill's `data.json`, and
 * folding every bill into the `billsMeta` map with a checkpoint every 1000 keys.
 */
module BillData {
  import opened Wrappers
  import opened PyValues
  import opened PyStrings
  import opened Seqs

  /** A checkpoint is written whenever the number of keys is a multiple of this. */
  const SAVE_ON_COUNT: nat := 1000

  /** Bill-version codes and the `as` label their titles carry. */
  const BILL_TYPES: map<string, string> := map["ih" := "introduced", "rh" := "reported to house"]

  /** The cosponsor fields kept in `billsMeta`. */
  const COSPONSOR_FIELDS: seq<string> := ["name", "bioguide_id"]

  // ----- recognising a bill directory -----

  predicate IsLower(c: char) { 'a' <= c <= 'z' }

  predicate IsDigit(c: char) { '0' <= c <= '9' }

  predicate AllLower(s: string) { forall i :: 0 <= i < |s| ==> IsLower(s[i]) }

  predicate AllDigits(s: string) { forall i :: 0 <= i < |s| ==> IsDigit(s[i]) }

  /** The length of the run of lower-case letters that starts `s`. */
  function LowerRun(s: string): (n: nat)
    ensures n <= |s|
    ensures AllLower(s[..n])
    ensures n < |s| ==> !IsLower(s[n])
    decreases |s|
  {
    if s != [] && IsLower(s[0]) then
      var n := 1 + LowerRun(s[1..]);
      assert s[..n] == [s[0]] + s[1..][..n - 1];
      n
    else 0
  }

  /** The run of letters ends at the first character that is not one. */
  lemma LowerRunIs(s: string, n: nat)
    requires n <= |s| && AllLower(s[..n]) && (n < |s| ==> !IsLower(s[n]))
    ensures LowerRun(s) == n
  {
    var m := LowerRun(s);
    assert forall i :: 0 <= i < n ==> s[..n][i] == s[i];
    assert forall i :: 0 <= i < m ==> s[..m][i] == s[i];
  }

  /** Whether `re.match(r'[a-z]+[0-9]+', s)` succeeds, decided by one scan of the letters. */
  predicate LeafMatches(s: string) {
    var n := LowerRun(s);
    0 < n < |s| && IsDigit(s[n])
  }

  /** What the pattern says: some prefix of `s` is one or more letters, then one or more digits. */
  ghost predicate LeafPattern(s: string) {
    exists i, j :: 1 <= i < j <= |s| && AllLower(s[..i]) && AllDigits(s[i..j])
  }

  /** The scan decides exactly the pattern, in both directions. */
  lemma LeafMatchesIsPattern(s: string)
    ensures LeafMatches(s) <==> LeafPattern(s)
  {
    var n := LowerRun(s);
    if LeafMatches(s) {
      assert AllDigits(s[n..n + 1]);
      assert AllLower(s[..n]);
    }
    if LeafPattern(s) {
      var i, j :| 1 <= i < j <= |s| && AllLower(s[..i]) && AllDigits(s[i..j]);
      assert IsDigit(s[i]) by { assert s[i..j][0] == s[i]; }
      assert n == i;
    }
  }

  /**
   * `getTopBillLevel(dirName)`: the last path segment matches the bill pattern and the
   * third-from-last segment is `bills`. Indexing `parts[-3]` raises when there are fewer than
   * three segments, but only once the leaf has matched.
   */
  function GetTopBillLevel(dirName: string): (r: Result<bool>)
    ensures r.Failure? ==> r.error == IndexError
  {
    var parts := Split(dirName, "/");
    if !LeafMatches(parts[|parts| - 1]) then Success(false)
    else if |parts| < 3 then Failure(IndexError)
    else Success(parts[|parts| - 3] == "bills")
  }

  /** The last segment of a path, as `dirName.split('/')[-1]`. */
  function LastSegment(dirName: string): string {
    var parts := Split(dirName, "/");
    parts[|parts| - 1]
  }

  /** The lookup raises exactly for a matching leaf with fewer than two slashes before it. */
  lemma TopBillLevelFails(dirName: string)
    ensures GetTopBillLevel(dirName).Failure? <==> LeafMatches(LastSegment(dirName)) && Count(dirName, '/') < 2
  {
    SplitCount(dirName, '/');
  }

  lemma SplitThree(a: string, b: string, c: string)
    requires '/' !in b && '/' !in c
    ensures Split(a + "/" + b + "/" + c, "/") == Split(a, "/") + [b, c]
  {
    SplitAppend(a, '/', b + "/" + c);
    SplitAppend(b, '/', c);
    SplitWithoutSep(b, '/');
    SplitWithoutSep(c, '/');
    assert a + "/" + b + "/" + c == a + ['/'] + (b + ['/'] + c);
  }

  /**
   * A directory `<root>/bills/<type>/<leaf>` is a bill's top level exactly when its leaf
   * matches the pattern, whatever the root.
   */
  lemma TopBillLevelOfBillDir(root: string, billType: string, leaf: string)
    requires '/' !in billType && '/' !in leaf
    ensures GetTopBillLevel(root + "/bills/" + billType + "/" + leaf) == Success(LeafMatches(leaf))
  {
    BillDirParts(root, billType, leaf);
  }

  /** The segments of `<root>/bills/<type>/<leaf>`: those of the root, then `bills`, the type and the leaf. */
  lemma BillDirParts(root: string, billType: string, leaf: string)
    requires '/' !in billType && '/' !in leaf
    ensures Split(root + "/bills/" + billType + "/" + leaf, "/") == Split(root, "/") + ["bills", billType, leaf]
  {
    BillsSegment(root);
    PathRegroup(root, billType, leaf);
    SplitThree(root + "/" + "bills", billType, leaf);
  }

  lemma BillsSegment(root: string)
    ensures Split(root + "/" + "bills", "/") == Split(root, "/") + ["bills"]
  {
    SplitAppend(root, '/', "bills");
    SplitWithoutSep("bills", '/');
  }

  lemma PathRegroup(root: string, billType: string, leaf: string)
    ensures root + "/bills/" + billType + "/" + leaf == (root + "/" + "bills") + "/" + billType + "/" + leaf
  {
  }

  /** A directory below a bill's top level is not one, because its leaf does not match. */
  lemma TopBillLevelOfSubdirectory(dirName: string, leaf: string)
    requires '/' !in leaf && !LeafMatches(leaf)
    ensures GetTopBillLevel(dirName + "/" + leaf) == Success(false)
  {
    SplitAppend(dirName, '/', leaf);
    SplitWithoutSep(leaf, '/');
  }

  /** The documented example: `../congress/data/116/bills/hr/hr1` is a bill's top level. */
  lemma TopBillLevelExampleBill()
    ensures GetTopBillLevel("../congress/data/116/bills/hr/hr1") == Success(true)
  {
    assert LowerRun("hr1") == 2 by {
      assert "hr1"[1..] == "r1" && "r1"[1..] == "1";
    }
    TopBillLevelOfBillDir("../congress/data/116", "hr", "hr1");
    assert "../congress/data/116/bills/hr/hr1" == "../congress/data/116" + "/bills/" + "hr" + "/" + "hr1";
  }

  /** The `text-versions` directory below a bill is not a bill's top level. */
  lemma TopBillLevelExampleTextVersions()
    ensures GetTopBillLevel("../congress/data/116/bills/hr/hr1/text-versions") == Success(false)
  {
    TextVersionsLeaf();
    TextVersionsPath();
    TopBillLevelOfSubdirectory("../congress/data/116/bills/hr/hr1", "text-versions");
  }

  lemma TextVersionsLeaf()
    ensures '/' !in "text-versions" && !LeafMatches("text-versions")
  {
    var s := "text-versions";
    assert s[..4] == "text" && s[4] == '-';
    LowerRunIs(s, 4);
  }

  lemma TextVersionsPath()
    ensures "../congress/data/116/bills/hr/hr1/text-versions" == "../congress/data/116/bills/hr/hr1" + "/" + "text-versions"
  {
  }

  /** A bill-type directory is not a bill's top level: its name has no digits. */
  lemma TopBillLevelExampleTypeDir()
    ensures GetTopBillLevel("../congress/data/116/bills/hr") == Success(false)
  {
    assert LowerRun("hr") == 2 by {
      assert "hr"[1..] == "r" && "r"[1..] == "";
    }
    TopBillLevelOfSubdirectory("../congress/data/116/bills", "hr");
    assert "../congress/data/116/bills/hr" == "../congress/data/116/bills" + "/" + "hr";
  }

  /** `getTopBillLevel` as a directory filter, where it does not raise. */
  predicate IsTopBillLevel(dirName: string) {
    GetTopBillLevel(dirName) == Success(true)
  }

  /** `isDataJson(fileName)`. */
  predicate IsDataJson(fileName: string) {
    fileName == "data.json"
  }

  // ----- walking the tree -----

  /** A directory tree as `os.walk` reports it: each directory with its file names, in walk order. */
  type Listing = seq<(string, seq<string>)>

  /** `(dir, f)` for every `f`, in order. */
  function Pairs(dir: string, files: seq<string>): (r: seq<(string, string)>)
    ensures |r| == |files|
    ensures forall i :: 0 <= i < |files| ==> r[i] == (dir, files[i])
  {
    seq(|files|, i requires 0 <= i < |files| => (dir, files[i]))
  }

  /** The `processFile(dir, file)` calls the walk makes, in order. */
  function WalkCalls(listing: Listing, dirMatch: string -> bool, fileMatch: string -> bool): seq<(string, string)>
    decreases |listing|
  {
    if listing == [] then []
    else WalkCalls(listing[..|listing| - 1], dirMatch, fileMatch) + DirCalls(listing[|listing| - 1], dirMatch, fileMatch)
  }

  /** The calls for one directory of the walk: none unless the directory matches, else one per matching file. */
  function DirCalls(entry: (string, seq<string>), dirMatch: string -> bool, fileMatch: string -> bool): seq<(string, string)> {
    if dirMatch(entry.0) then Pairs(entry.0, Filter(entry.1, fileMatch)) else []
  }

  /**
   * `walkBillDirs(processFile, dirMatch, fileMatch)`: for every matching directory, every
   * matching file, in listing order. Returns the sequence of `processFile` calls.
   */
  method WalkBillDirs(listing: Listing, dirMatch: string -> bool, fileMatch: string -> bool)
    returns (calls: seq<(string, string)>)
    ensures calls == WalkCalls(listing, dirMatch, fileMatch)
  {
    calls := [];
    for i := 0 to |listing|
      invariant calls == WalkCalls(listing[..i], dirMatch, fileMatch)
    {
      assert listing[..i + 1][..i] == listing[..i];
      assert WalkCalls(listing[..i + 1], dirMatch, fileMatch)
          == WalkCalls(listing[..i], dirMatch, fileMatch) + DirCalls(listing[i], dirMatch, fileMatch);
      var (dirName, fileList) := listing[i];
      if dirMatch(dirName) {
        var filteredFileList := Filter(fileList, fileMatch);
        ghost var before := calls;
        for j := 0 to |filteredFileList|
          invariant calls == before + Pairs(dirName, filteredFileList[..j])
        {
          assert Pairs(dirName, filteredFileList[..j + 1]) == Pairs(dirName, filteredFileList[..j]) + [(dirName, filteredFileList[j])];
          calls := calls + [(dirName, filteredFileList[j])];
        }
        assert filteredFileList[..|filteredFileList|] == filteredFileList;
      }
    }
    assert listing[..|listing|] == listing;
  }

  /** File `f` is listed in directory `dir`. */
  ghost predicate Listed(listing: Listing, dir: string, f: string) {
    exists i :: 0 <= i < |listing| && listing[i].0 == dir && f in listing[i].1
  }

  /** A file is processed exactly when it is listed, matching, in a matching directory. */
  lemma {:induction false} WalkCallsMembers(listing: Listing, dirMatch: string -> bool, fileMatch: string -> bool)
    ensures forall dir, f :: (dir, f) in WalkCalls(listing, dirMatch, fileMatch) <==>
      dirMatch(dir) && fileMatch(f) && Listed(listing, dir, f)
    decreases |listing|
  {
    if listing != [] {
      var pre, last := listing[..|listing| - 1], listing[|listing| - 1];
      WalkCallsMembers(pre, dirMatch, fileMatch);
      FilterMembers(last.1, fileMatch);
      PairsMembers(last.0, Filter(last.1, fileMatch));
      assert WalkCalls(listing, dirMatch, fileMatch)
          == WalkCalls(pre, dirMatch, fileMatch) + (if dirMatch(last.0) then Pairs(last.0, Filter(last.1, fileMatch)) else []);
      forall dir, f ensures Listed(listing, dir, f) <==> Listed(pre, dir, f) || (last.0 == dir && f in last.1) {
        ListedSnoc(listing, dir, f);
      }
    }
  }

  lemma PairsMembers(dir: string, files: seq<string>)
    ensures forall d, f :: (d, f) in Pairs(dir, files) <==> d == dir && f in files
  {
    forall d, f | d == dir && f in files ensures (d, f) in Pairs(dir, files) {
      var k :| 0 <= k < |files| && files[k] == f;
      assert Pairs(dir, files)[k] == (d, f);
    }
  }

  lemma ListedSnoc(listing: Listing, dir: string, f: string)
    requires listing != []
    ensures var pre, last := listing[..|listing| - 1], listing[|listing| - 1];
      Listed(listing, dir, f) <==> Listed(pre, dir, f) || (last.0 == dir && f in last.1)
  {
    var pre := listing[..|listing| - 1];
    if Listed(listing, dir, f) {
      var i :| 0 <= i < |listing| && listing[i].0 == dir && f in listing[i].1;
      if i < |pre| {
        assert pre[i] == listing[i];
      }
    }
    if Listed(pre, dir, f) {
      var i :| 0 <= i < |pre| && pre[i].0 == dir && f in pre[i].1;
      assert listing[i] == pre[i];
    }
  }

  /** The calls for two consecutive stretches of the walk follow one another. */
  lemma {:induction false} WalkCallsAppend(a: Listing, b: Listing, dirMatch: string -> bool, fileMatch: string -> bool)
    ensures WalkCalls(a + b, dirMatch, fileMatch) == WalkCalls(a, dirMatch, fileMatch) + WalkCalls(b, dirMatch, fileMatch)
    decreases |b|
  {
    if b == [] {
      assert a + b == a;
    } else {
      var bpre := b[..|b| - 1];
      var step := DirCalls(b[|b| - 1], dirMatch, fileMatch);
      assert (a + b)[..|a + b| - 1] == a + bpre;
      assert (a + b)[|a + b| - 1] == b[|b| - 1];
      calc {
        WalkCalls(a + b, dirMatch, fileMatch);
        WalkCalls(a + bpre, dirMatch, fileMatch) + step;
        { WalkCallsAppend(a, bpre, dirMatch, fileMatch); }
        WalkCalls(a, dirMatch, fileMatch) + WalkCalls(bpre, dirMatch, fileMatch) + step;
        WalkCalls(a, dirMatch, fileMatch) + (WalkCalls(bpre, dirMatch, fileMatch) + step);
      }
    }
  }

  function DirNames(listing: Listing): (r: seq<string>)
    ensures |r| == |listing|
    ensures forall i :: 0 <= i < |listing| ==> r[i] == listing[i].0
  {
    seq(|listing|, i requires 0 <= i < |listing| => listing[i].0)
  }

  /**
   * `os.walk` reports each directory once and each file name once per directory; then every
   * matching file is processed exactly once.
   */
  lemma {:induction false} WalkCallsDistinct(listing: Listing, dirMatch: string -> bool, fileMatch: string -> bool)
    requires Distinct(DirNames(listing))
    requires forall i :: 0 <= i < |listing| ==> Distinct(listing[i].1)
    ensures Distinct(WalkCalls(listing, dirMatch, fileMatch))
    decreases |listing|
  {
    if listing != [] {
      var pre := listing[..|listing| - 1];
      var (d, files) := listing[|listing| - 1];
      assert DirNames(pre) == DirNames(listing)[..|pre|];
      WalkCallsDistinct(pre, dirMatch, fileMatch);
      WalkCallsMembers(pre, dirMatch, fileMatch);
      if dirMatch(d) {
        var old_ := WalkCalls(pre, dirMatch, fileMatch);
        var ff := Filter(files, fileMatch);
        FilterDistinct(files, fileMatch);
        var new_ := Pairs(d, ff);
        forall x, y | 0 <= x < |old_| && 0 <= y < |new_|
          ensures old_[x] != new_[y]
        {
          assert new_[y] == (d, ff[y]);
        }
      }
    }
  }

  // ----- reading a bill's data.json -----

  /**
   * `getBillCongressTypeNumber(fileDict)`: a `bill_id` such as `hr1-116` becomes `116hr1`
   * (second hyphen-separated part, then the first). A missing or falsy id gives None; a
   * non-string id has no `split`; an id without a hyphen has no second part.
   */
  function GetBillCongressTypeNumber(doc: PyDict): (r: Result<Option<string>>)
    ensures r == Success(None) <==> !Truthy(Get(doc, "bill_id"))
    ensures r == Failure(AttributeError) <==> Truthy(Get(doc, "bill_id")) && !Get(doc, "bill_id").Str?
    ensures r == Failure(IndexError) <==> Get(doc, "bill_id").Str? && Get(doc, "bill_id").s != "" && '-' !in Get(doc, "bill_id").s
  {
    var billId := Get(doc, "bill_id");
    if !Truthy(billId) then Success(None)
    else if !billId.Str? then Failure(AttributeError)
    else
      var parts := Split(billId.s, "-");
      SplitCount(billId.s, '-');
      CountZero(billId.s, '-');
      if |parts| < 2 then Failure(IndexError) else Success(Some(parts[1] + parts[0]))
  }

  lemma {:induction false} CountZero(s: string, c: char)
    ensures Count(s, c) == 0 <==> c !in s
    decreases |s|
  {
    if s != [] {
      CountZero(s[1..], c);
      assert s == [s[0]] + s[1..];
    }
  }

  /**
   * For `bill_id == type + "-" + congress + rest`, where neither part holds a hyphen and `rest`
   * is empty or starts a further segment, the key is `congress + type`; later segments are ignored.
   */
  lemma BillCongressTypeNumberOf(doc: PyDict, billType: string, congress: string, rest: string)
    requires '-' !in billType && '-' !in congress
    requires rest == [] || rest[0] == '-'
    requires Get(doc, "bill_id") == Str(billType + "-" + congress + rest)
    ensures GetBillCongressTypeNumber(doc) == Success(Some(congress + billType))
  {
    var s := billType + "-" + congress + rest;
    assert s == billType + ['-'] + (congress + rest);
    SplitAppend(billType, '-', congress + rest);
    SplitWithoutSep(billType, '-');
    var after := Split(congress + rest, "-");
    if rest == [] {
      assert congress + rest == congress;
      SplitWithoutSep(congress, '-');
    } else {
      assert congress + rest == congress + ['-'] + rest[1..];
      SplitAppend(congress, '-', rest[1..]);
      SplitWithoutSep(congress, '-');
    }
    assert after[0] == congress;
    assert Split(s, "-") == [billType] + after;
  }

  /**
   * `getCosponsors(fileDict, includeFields)`: with no fields, the raw `cosponsors` value; with
   * fields, one dict per cosponsor holding exactly those fields (None where the cosponsor lacks
   * one), in the original order. The cosponsors must be a list of dicts (or an empty string or
   * dict, which iterate nothing).
   */
  function GetCosponsors(doc: PyDict, includeFields: seq<string>): (r: Result<Value>)
    ensures includeFields == [] ==> r == Success(Get(doc, "cosponsors"))
    ensures includeFields != [] ==> (r.Success? <==> DictItems(Get(doc, "cosponsors")).Success?)
    ensures includeFields != [] && r.Success? ==>
      var items := DictItems(Get(doc, "cosponsors")).value;
      && r.value.List? && |r.value.items| == |items|
      && forall i :: 0 <= i < |items| ==>
           && r.value.items[i].Dict?
           && r.value.items[i].fields.Keys == (set f | f in includeFields)
           && forall f :: f in includeFields ==> r.value.items[i].fields[f] == Get(items[i], f)
  {
    var cosponsors := Get(doc, "cosponsors");
    if includeFields == [] then Success(cosponsors)
    else
      var items :- DictItems(cosponsors);
      Success(List(seq(|items|, i requires 0 <= i < |items| =>
        Dict(map f | f in includeFields :: Get(items[i], f)))))
  }

  /** A title entry that covers the whole bill: its `is_for_portion` is falsy. */
  predicate IsWholeBill(title: PyDict) {
    !Truthy(Get(title, "is_for_portion"))
  }

  /** The `as` label a bill-version code filters on, or None for `all` and unknown codes. */
  function StageLabel(billType: string): (stage: Option<string>)
    ensures stage.Some? <==> billType in BILL_TYPES
    ensures stage.Some? ==> stage.value == BILL_TYPES[billType]
  {
    if billType != "all" && billType in BILL_TYPES then Some(BILL_TYPES[billType]) else None
  }

  function AsValue(d: PyDict): Value { Dict(d) }

  function StageFilter(titles: seq<PyDict>, stage: string): seq<PyDict>
    decreases |titles|
  {
    if titles == [] then []
    else
      var last := titles[|titles| - 1];
      StageFilter(titles[..|titles| - 1], stage) + (if Get(last, "as") == Str(stage) then [last] else [])
  }

  /** The titles `getBillTitles` keeps from a list of title dicts once it filters at all. */
  function SelectTitles(titles: seq<PyDict>, includePartial: bool, stage: Option<string>): seq<PyDict>
  {
    var whole := if includePartial then titles else Filter(titles, IsWholeBill);
    if stage.Some? then StageFilter(whole, stage.value) else whole
  }

  /**
   * `getBillTitles(fileDict, include_partial, billType)`: all titles by default; only the
   * whole-bill ones when partial titles are excluded; only those whose `as` is the stage stage
   * when `billType` names a known stage.
   */
  function GetBillTitles(doc: PyDict, includePartial: bool, billType: string): (r: Result<Value>)
    ensures includePartial && StageLabel(billType).None? ==> r == Success(Get(doc, "titles"))
    ensures !(includePartial && StageLabel(billType).None?) ==>
      (r.Success? <==> DictItems(Get(doc, "titles")).Success?)
    ensures !(includePartial && StageLabel(billType).None?) && r.Success? ==>
      var titles := DictItems(Get(doc, "titles")).value;
      && r.value.List?
      && (forall v :: v in r.value.items ==> v.Dict?)
      && IsSubsequence(r.value.items, Map(titles, AsValue))
      && forall t :: Dict(t) in r.value.items <==> t in titles && KeepTitle(t, includePartial, StageLabel(billType))
  {
    var titles := Get(doc, "titles");
    var stage := StageLabel(billType);
    if includePartial && stage.None? then Success(titles)
    else
      var items :- DictItems(titles);
      var kept := SelectTitles(items, includePartial, stage);
      SelectTitlesSpec(items, includePartial, stage);
      MapSubsequence(kept, items, AsValue);
      AsValueMembers(kept);
      Success(List(Map(kept, AsValue)))
  }

  /** The titles as values are dicts, and a dict is among them exactly when its fields are a title. */
  lemma AsValueMembers(titles: seq<PyDict>)
    ensures forall v :: v in Map(titles, AsValue) ==> v.Dict?
    ensures forall t :: Dict(t) in Map(titles, AsValue) <==> t in titles
  {
    var vs := Map(titles, AsValue);
    forall t | t in titles ensures Dict(t) in vs {
      var i :| 0 <= i < |titles| && titles[i] == t;
      assert vs[i] == Dict(t);
    }
  }

  /** Whether a title survives the filters of `getBillTitles`. */
  predicate KeepTitle(title: PyDict, includePartial: bool, stage: Option<string>) {
    && (includePartial || IsWholeBill(title))
    && (stage.None? || Get(title, "as") == Str(stage.value))
  }

  lemma {:induction false} StageFilterSpec(titles: seq<PyDict>, stage: string)
    ensures IsSubsequence(StageFilter(titles, stage), titles)
    ensures forall t :: t in StageFilter(titles, stage) <==> t in titles && Get(t, "as") == Str(stage)
    decreases |titles|
  {
    if titles != [] {
      var pre, last := titles[..|titles| - 1], titles[|titles| - 1];
      StageFilterSpec(pre, stage);
      assert titles == pre + [last];
      if Get(last, "as") == Str(stage) {
        SubsequenceExtendBoth(StageFilter(pre, stage), pre, last);
      } else {
        assert StageFilter(titles, stage) == StageFilter(pre, stage);
        SubsequenceExtend(StageFilter(pre, stage), pre, last);
      }
    }
  }

  lemma SubsequenceTransitive<T>(xs: seq<T>, ys: seq<T>, zs: seq<T>)
    requires IsSubsequence(xs, ys) && IsSubsequence(ys, zs)
    ensures IsSubsequence(xs, zs)
    decreases |zs|
  {
    if xs != [] && zs != [] {
      var xpre, ypre, zpre := xs[..|xs| - 1], ys[..|ys| - 1], zs[..|zs| - 1];
      if ys[|ys| - 1] == zs[|zs| - 1] && IsSubsequence(ypre, zpre) {
        if xs[|xs| - 1] == ys[|ys| - 1] && IsSubsequence(xpre, ypre) {
          SubsequenceTransitive(xpre, ypre, zpre);
        } else {
          SubsequenceTransitive(xs, ypre, zpre);
        }
      } else {
        SubsequenceTransitive(xs, ys, zpre);
      }
    }
  }

  /**
   * The kept titles are, in their original order, exactly the titles that pass both filters.
   */
  lemma SelectTitlesSpec(titles: seq<PyDict>, includePartial: bool, stage: Option<string>)
    ensures IsSubsequence(SelectTitles(titles, includePartial, stage), titles)
    ensures forall t :: t in SelectTitles(titles, includePartial, stage) <==> t in titles && KeepTitle(t, includePartial, stage)
  {
    var whole := if includePartial then titles else Filter(titles, IsWholeBill);
    if includePartial {
      SubsequenceReflexive(titles);
    } else {
      FilterIsSubsequence(titles, IsWholeBill);
      FilterMembers(titles, IsWholeBill);
    }
    if stage.Some? {
      StageFilterSpec(whole, stage.value);
      SubsequenceTransitive(StageFilter(whole, stage.value), whole, titles);
    }
  }

  // ----- one bill's entry in billsMeta -----

  function TitleOf(title: PyDict): Value { Get(title, "title") }

  /** `[title.get('title') for title in titles]`. */
  function TitleTexts(titles: seq<PyDict>): seq<Value> {
    Map(titles, TitleOf)
  }

  /** `[title.get('title') for title in titles if not title.get('is_for_portion')]`. */
  function WholeBillTitleTexts(titles: seq<PyDict>): seq<Value> {
    Map(Filter(titles, IsWholeBill), TitleOf)
  }

  /**
   * The whole-bill titles are the texts of the titles with a falsy `is_for_portion`, and they
   * appear in `titles` in the same order.
   */
  lemma WholeBillTitlesSpec(titles: seq<PyDict>)
    ensures IsSubsequence(WholeBillTitleTexts(titles), TitleTexts(titles))
    ensures forall v :: v in WholeBillTitleTexts(titles) <==> exists t :: t in titles && IsWholeBill(t) && TitleOf(t) == v
  {
    FilterIsSubsequence(titles, IsWholeBill);
    MapSubsequence(Filter(titles, IsWholeBill), titles, TitleOf);
    FilterMapMembers(titles, IsWholeBill, TitleOf);
  }

  // ----- folding bills into billsMeta -----

  /** A bill's entry in `billsMeta`. */
  type Entry = PyDict

  /** `billsMeta`: congress-type-number key to the bill's entry. */
  type Meta = map<string, Entry>

  /** The fields `addToBillsMeta` writes into an entry. */
  const ENTRY_FIELDS: set<string> := {"titles", "titles_whole_bill", "cosponsors"}

  /** The key a loaded `data.json` is filed under: a dict whose normalised id is non-empty. */
  function DocKey(doc: Value): (key: Option<string>)
    ensures key.Some? ==> doc.Dict? && key.value != ""
  {
    if !doc.Dict? then None
    else
      match GetBillCongressTypeNumber(doc.fields)
      case Success(Some(k)) => if k != "" then Some(k) else None
      case _ => None
  }

  /** The entry `addToBillsMeta` writes into: the existing one, unless it is missing or empty. */
  function BaseEntry(meta: Meta, k: string): Entry {
    if k in meta && meta[k] != map[] then meta[k] else map[]
  }

  /**
   * The entry after `addToBillsMeta` has written what it could: titles and whole-bill titles
   * when the titles iterate, then the cosponsors when they iterate too.
   */
  function Written(base: Entry, titles: Result<seq<PyDict>>, cosponsors: Result<Value>): Entry {
    if titles.Failure? then base
    else
      var e := WithTitles(base, titles.value);
      if cosponsors.Failure? then e else e["cosponsors" := cosponsors.value]
  }

  /** The entry once the titles and whole-bill titles are written. */
  function WithTitles(base: Entry, titles: seq<PyDict>): Entry {
    base["titles" := List(TitleTexts(titles))]["titles_whole_bill" := List(WholeBillTitleTexts(titles))]
  }

  /** The state after one `addToBillsMeta` call, whether it saved, and whether it raised. */
  datatype StepResult = StepResult(meta: Meta, saved: bool, outcome: Outcome)

  /** How `addToBillsMeta` ends on a document it does not file: it raises or returns early. */
  function SkipOutcome(doc: Value): Outcome {
    if !doc.Dict? then Fail(AttributeError)
    else
      match GetBillCongressTypeNumber(doc.fields)
      case Failure(e) => Fail(e)
      case Success(_) => Pass
  }

  /** How filing a document ends: the titles, then the cosponsors, must iterate. */
  function FileOutcome(fields: PyDict): Outcome {
    var titles := DictItems(Get(fields, "titles"));
    var cosponsors := GetCosponsors(fields, COSPONSOR_FIELDS);
    if titles.Failure? then Fail(titles.error)
    else if cosponsors.Failure? then Fail(cosponsors.error)
    else Pass
  }

  /** Filing a document under key `k`. */
  function FileBill(meta: Meta, k: string, fields: PyDict): StepResult {
    var entry := Written(BaseEntry(meta, k), DictItems(Get(fields, "titles")), GetCosponsors(fields, COSPONSOR_FIELDS));
    var meta' := meta[k := entry];
    var outcome := FileOutcome(fields);
    StepResult(meta', outcome.Pass? && |meta'| % SAVE_ON_COUNT == 0, outcome)
  }
  /** Filing when the titles do not iterate: only the (possibly new) entry is written, and it raises. */
  lemma FileBillTitlesFail(meta: Meta, k: string, fields: PyDict)
    requires DictItems(Get(fields, "titles")).Failure?
    ensures FileBill(meta, k, fields)
         == StepResult(meta[k := BaseEntry(meta, k)], false, Fail(DictItems(Get(fields, "titles")).error))
  {
  }

  /** Filing when the cosponsors do not iterate: the titles are written, and it raises. */
  lemma FileBillCosponsorsFail(meta: Meta, k: string, fields: PyDict)
    requires DictItems(Get(fields, "titles")).Success? && GetCosponsors(fields, COSPONSOR_FIELDS).Failure?
    ensures FileBill(meta, k, fields)
         == StepResult(meta[k := WithTitles(BaseEntry(meta, k), DictItems(Get(fields, "titles")).value)], false,
                       Fail(GetCosponsors(fields, COSPONSOR_FIELDS).error))
  {
  }

  /** Filing when everything iterates: the three fields are written, and it saves at a multiple of SAVE_ON_COUNT. */
  lemma FileBillPass(meta: Meta, k: string, fields: PyDict)
    requires DictItems(Get(fields, "titles")).Success? && GetCosponsors(fields, COSPONSOR_FIELDS).Success?
    ensures var e := WithTitles(BaseEntry(meta, k), DictItems(Get(fields, "titles")).value);
      var m := meta[k := e["cosponsors" := GetCosponsors(fields, COSPONSOR_FIELDS).value]];
      FileBill(meta, k, fields) == StepResult(m, |m| % SAVE_ON_COUNT == 0, Pass)
  {
  }



  /**
   * `addToBillsMeta` on a loaded `data.json`: file the bill's titles, whole-bill titles and
   * cosponsors (name and bioguide id) under its key, then save when the number of keys is a
   * multiple of SAVE_ON_COUNT. A document without a key is skipped; an error after the entry
   * was created leaves what was written so far.
   */
  function Step(meta: Meta, doc: Value): (s: StepResult)
    ensures DocKey(doc).None? ==> s.meta == meta && !s.saved
    ensures DocKey(doc).Some? ==>
      var k := DocKey(doc).value;
      k in s.meta && s.meta == meta[k := s.meta[k]]
    ensures s.saved <==> s.outcome.Pass? && DocKey(doc).Some? && |s.meta| % SAVE_ON_COUNT == 0
    ensures |meta| <= |s.meta| <= |meta| + 1
  {
    match DocKey(doc)
    case None => StepResult(meta, false, SkipOutcome(doc))
    case Some(k) => FileBill(meta, k, doc.fields)
  }

  /** Whether a document raises does not depend on what `billsMeta` already holds. */
  lemma StepOutcomeIndependent(m1: Meta, m2: Meta, doc: Value)
    ensures Step(m1, doc).outcome == Step(m2, doc).outcome
  {
  }

  /**
   * A bill filed without error has an entry with the three fields on top of what it had:
   * the texts of all its titles, the whole-bill ones among them in the same order, and one
   * `{name, bioguide_id}` dict per cosponsor.
   */
  lemma StepEntry(meta: Meta, doc: Value)
    requires DocKey(doc).Some? && Step(meta, doc).outcome.Pass?
    ensures var k := DocKey(doc).value;
      var e := Step(meta, doc).meta[k];
      var titles := DictItems(Get(doc.fields, "titles")).value;
      var cosponsors := DictItems(Get(doc.fields, "cosponsors")).value;
      && e.Keys == BaseEntry(meta, k).Keys + ENTRY_FIELDS
      && e["titles"] == List(TitleTexts(titles))
      && e["titles_whole_bill"].List?
      && IsSubsequence(e["titles_whole_bill"].items, e["titles"].items)
      && e["cosponsors"].List? && |e["cosponsors"].items| == |cosponsors|
      && (forall i :: 0 <= i < |cosponsors| ==>
            && e["cosponsors"].items[i].Dict?
            && e["cosponsors"].items[i].fields == map["name" := Get(cosponsors[i], "name"),
                                                      "bioguide_id" := Get(cosponsors[i], "bioguide_id")])
      && forall f :: f in BaseEntry(meta, k) && f !in ENTRY_FIELDS ==> e[f] == BaseEntry(meta, k)[f]
  {
    var k := DocKey(doc).value;
    assert Step(meta, doc) == FileBill(meta, k, doc.fields);
    WrittenEntry(BaseEntry(meta, k), doc.fields);
  }

  /** What filing writes into an entry, when it raises nothing. */
  lemma WrittenEntry(base: Entry, fields: PyDict)
    requires FileOutcome(fields).Pass?
    ensures var e := Written(base, DictItems(Get(fields, "titles")), GetCosponsors(fields, COSPONSOR_FIELDS));
      var titles := DictItems(Get(fields, "titles")).value;
      var cosponsors := DictItems(Get(fields, "cosponsors")).value;
      && e.Keys == base.Keys + ENTRY_FIELDS
      && e["titles"] == List(TitleTexts(titles))
      && e["titles_whole_bill"].List?
      && IsSubsequence(e["titles_whole_bill"].items, e["titles"].items)
      && e["cosponsors"].List? && |e["cosponsors"].items| == |cosponsors|
      && (forall i :: 0 <= i < |cosponsors| ==>
            && e["cosponsors"].items[i].Dict?
            && e["cosponsors"].items[i].fields == map["name" := Get(cosponsors[i], "name"),
                                                      "bioguide_id" := Get(cosponsors[i], "bioguide_id")])
      && forall f :: f in base && f !in ENTRY_FIELDS ==> e[f] == base[f]
  {
    var titles := DictItems(Get(fields, "titles")).value;
    WholeBillTitlesSpec(titles);
    var cs := GetCosponsors(fields, COSPONSOR_FIELDS).value;
    var e := WithTitles(base, titles)["cosponsors" := cs];
    assert Written(base, DictItems(Get(fields, "titles")), GetCosponsors(fields, COSPONSOR_FIELDS)) == e;
    var cosponsors := DictItems(Get(fields, "cosponsors")).value;
    forall i | 0 <= i < |cosponsors|
      ensures cs.items[i].fields == map["name" := Get(cosponsors[i], "name"),
                                        "bioguide_id" := Get(cosponsors[i], "bioguide_id")]
    {
      assert "name" in COSPONSOR_FIELDS && "bioguide_id" in COSPONSOR_FIELDS;
    }
  }

  /**
   * Filing overwrites rather than merges: once a bill is filed without error, its entry no
   * longer depends on the entry it replaced, provided that entry held only the three fields.
   */
  lemma StepOverwrites(m1: Meta, m2: Meta, doc: Value)
    requires DocKey(doc).Some? && Step(m1, doc).outcome.Pass?
    requires var k := DocKey(doc).value;
      BaseEntry(m1, k).Keys <= ENTRY_FIELDS && BaseEntry(m2, k).Keys <= ENTRY_FIELDS
    ensures var k := DocKey(doc).value;
      Step(m1, doc).meta[k] == Step(m2, doc).meta[k]
  {
    var k := DocKey(doc).value;
    assert Step(m1, doc) == FileBill(m1, k, doc.fields);
    assert Step(m2, doc) == FileBill(m2, k, doc.fields);
    WrittenOverwrites(BaseEntry(m1, k), BaseEntry(m2, k), doc.fields);
  }

  /** Filing into an entry that holds only the written fields leaves nothing of it behind. */
  lemma WrittenOverwrites(b1: Entry, b2: Entry, fields: PyDict)
    requires FileOutcome(fields).Pass? && b1.Keys <= ENTRY_FIELDS && b2.Keys <= ENTRY_FIELDS
    ensures Written(b1, DictItems(Get(fields, "titles")), GetCosponsors(fields, COSPONSOR_FIELDS))
         == Written(b2, DictItems(Get(fields, "titles")), GetCosponsors(fields, COSPONSOR_FIELDS))
  {
    var titles := DictItems(Get(fields, "titles")).value;
    var cs := GetCosponsors(fields, COSPONSOR_FIELDS).value;
    var e1, e2 := WithTitles(b1, titles)["cosponsors" := cs], WithTitles(b2, titles)["cosponsors" := cs];
    assert e1.Keys == ENTRY_FIELDS == e2.Keys;
  }

  /** The state after a run of `addToBillsMeta` calls: the map, the snapshots saved, and the outcome. */
  datatype RunResult = RunResult(meta: Meta, saves: seq<Meta>, outcome: Outcome)

  /**
   * `addToBillsMeta` on every document in order, starting from `meta`; the first error stops
   * the run.
   */
  function Run(meta: Meta, docs: seq<Value>): RunResult
    decreases |docs|
  {
    if docs == [] then RunResult(meta, [], Pass)
    else
      var prev := Run(meta, docs[..|docs| - 1]);
      if prev.outcome.Fail? then prev
      else
        var s := Step(prev.meta, docs[|docs| - 1]);
        RunResult(s.meta, prev.saves + (if s.saved then [s.meta] else []), s.outcome)
  }

  /** After an error, further documents change nothing. */
  lemma {:induction false} RunStopsAtFailure(meta: Meta, docs: seq<Value>, more: seq<Value>)
    requires Run(meta, docs).outcome.Fail?
    ensures Run(meta, docs + more) == Run(meta, docs)
    decreases |more|
  {
    if more == [] {
      assert docs + more == docs;
    } else {
      var pre := more[..|more| - 1];
      assert (docs + more)[..|docs + more| - 1] == docs + pre;
      RunStopsAtFailure(meta, docs, pre);
    }
  }

  /** Whether a run raises, and where, does not depend on the starting map. */
  lemma {:induction false} RunOutcomeIndependent(m1: Meta, m2: Meta, docs: seq<Value>)
    ensures Run(m1, docs).outcome == Run(m2, docs).outcome
    decreases |docs|
  {
    if docs != [] {
      var pre := docs[..|docs| - 1];
      RunOutcomeIndependent(m1, m2, pre);
      StepOutcomeIndependent(Run(m1, pre).meta, Run(m2, pre).meta, docs[|docs| - 1]);
    }
  }

  /**
   * A run keeps every key it started with, adds only the keys of the documents it read, and
   * leaves alone the entries of bills none of them names.
   */
  lemma {:induction false} RunKeys(meta: Meta, docs: seq<Value>)
    ensures meta.Keys <= Run(meta, docs).meta.Keys
    ensures forall k :: k in Run(meta, docs).meta && k !in meta ==> Names(docs, k)
    ensures forall k :: k in meta && !Names(docs, k) ==> Run(meta, docs).meta[k] == meta[k]
    decreases |docs|
  {
    if docs != [] {
      var pre := docs[..|docs| - 1];
      RunKeys(meta, pre);
      RunLastKeys(meta, docs);
      forall k ensures Names(docs, k) <==> Names(pre, k) || DocKey(docs[|docs| - 1]) == Some(k) {
        NamesSnoc(docs, k);
      }
    }
  }

  /** Some document of `docs` is filed under `k`. */
  ghost predicate Names(docs: seq<Value>, k: string) {
    exists j :: 0 <= j < |docs| && DocKey(docs[j]) == Some(k)
  }

  lemma NamesSnoc(docs: seq<Value>, k: string)
    requires docs != []
    ensures Names(docs, k) <==> Names(docs[..|docs| - 1], k) || DocKey(docs[|docs| - 1]) == Some(k)
  {
    var pre := docs[..|docs| - 1];
    if Names(docs, k) {
      var j :| 0 <= j < |docs| && DocKey(docs[j]) == Some(k);
      if j < |pre| {
        assert pre[j] == docs[j];
      }
    }
    if Names(pre, k) {
      var j :| 0 <= j < |pre| && DocKey(pre[j]) == Some(k);
      assert docs[j] == pre[j];
    }
  }

  /** The last document of a run adds at most its own key, and changes no other entry. */
  lemma RunLastKeys(meta: Meta, docs: seq<Value>)
    requires docs != []
    ensures var prev, run, last := Run(meta, docs[..|docs| - 1]).meta, Run(meta, docs).meta, docs[|docs| - 1];
      && prev.Keys <= run.Keys
      && (forall k :: k in run && k !in prev ==> DocKey(last) == Some(k))
      && (forall k :: k in prev && DocKey(last) != Some(k) ==> run[k] == prev[k])
  {
  }

  /**
   * Every snapshot a run saves holds a multiple of SAVE_ON_COUNT keys, and the snapshots only
   * ever grow: each holds the keys of the ones before it and of the starting map.
   */
  lemma {:induction false} RunSaves(meta: Meta, docs: seq<Value>)
    ensures |Run(meta, docs).saves| <= |docs|
    ensures forall i :: 0 <= i < |Run(meta, docs).saves| ==>
      var snap := Run(meta, docs).saves[i];
      |snap| % SAVE_ON_COUNT == 0 && meta.Keys <= snap.Keys && snap.Keys <= Run(meta, docs).meta.Keys
    ensures forall i, j :: 0 <= i < j < |Run(meta, docs).saves| ==>
      Run(meta, docs).saves[i].Keys <= Run(meta, docs).saves[j].Keys
    decreases |docs|
  {
    if docs != [] {
      var pre := docs[..|docs| - 1];
      var prev, run := Run(meta, pre), Run(meta, docs);
      RunSaves(meta, pre);
      RunKeys(meta, pre);
      RunLast(meta, docs);
      forall i | 0 <= i < |run.saves|
        ensures |run.saves[i]| % SAVE_ON_COUNT == 0 && meta.Keys <= run.saves[i].Keys <= run.meta.Keys
      {
        if i < |prev.saves| {
          assert run.saves[i] == prev.saves[i];
        }
      }
      forall i, j | 0 <= i < j < |run.saves| ensures run.saves[i].Keys <= run.saves[j].Keys {
        assert run.saves[i] == prev.saves[i];
        if j < |prev.saves| {
          assert run.saves[j] == prev.saves[j];
        }
      }
    }
  }

  /** The last document of a run only adds keys, and saves at most the map it leaves, at a multiple of SAVE_ON_COUNT. */
  lemma RunLast(meta: Meta, docs: seq<Value>)
    requires docs != []
    ensures var prev, run := Run(meta, docs[..|docs| - 1]), Run(meta, docs);
      && prev.meta.Keys <= run.meta.Keys
      && (run.saves == prev.saves || (run.saves == prev.saves + [run.meta] && |run.meta| % SAVE_ON_COUNT == 0))
  {
  }

  predicate EntriesWithin(meta: Meta, fields: set<string>) {
    forall k :: k in meta ==> meta[k].Keys <= fields
  }

  lemma {:induction false} RunEntriesWithin(meta: Meta, docs: seq<Value>)
    requires EntriesWithin(meta, ENTRY_FIELDS) && Run(meta, docs).outcome.Pass?
    ensures EntriesWithin(Run(meta, docs).meta, ENTRY_FIELDS)
    decreases |docs|
  {
    if docs != [] {
      var pre := docs[..|docs| - 1];
      RunEntriesWithin(meta, pre);
      var doc := docs[|docs| - 1];
      if DocKey(doc).Some? {
        StepEntry(Run(meta, pre).meta, doc);
      }
    }
  }

  /** One filing on a map laid over another is the same filing laid over the first. */
  lemma StepOverlay(meta: Meta, w: Meta, doc: Value)
    requires EntriesWithin(meta, ENTRY_FIELDS) && EntriesWithin(w, ENTRY_FIELDS)
    requires Step(w, doc).outcome.Pass?
    ensures Step(meta + w, doc).meta == meta + Step(w, doc).meta
  {
    if DocKey(doc).Some? {
      var k := DocKey(doc).value;
      StepOutcomeIndependent(meta + w, w, doc);
      BaseEntryOverlay(meta, w, k);
      StepOverwrites(meta + w, w, doc);
      var e := Step(w, doc).meta[k];
      MapUpdateOverlay(meta, w, k, e);
    }
  }

  lemma BaseEntryOverlay(meta: Meta, w: Meta, k: string)
    requires EntriesWithin(meta, ENTRY_FIELDS) && EntriesWithin(w, ENTRY_FIELDS)
    ensures BaseEntry(meta + w, k).Keys <= ENTRY_FIELDS
  {
    if k in w {
      assert (meta + w)[k] == w[k];
    } else if k in meta {
      assert (meta + w)[k] == meta[k];
    }
  }

  lemma MapUpdateTwice<K, V>(m: map<K, V>, k: K, v1: V, v2: V)
    ensures m[k := v1][k := v2] == m[k := v2]
  {
  }

  lemma MapUpdateOverlay<K, V>(m: map<K, V>, w: map<K, V>, k: K, v: V)
    ensures (m + w)[k := v] == m + w[k := v]
  {
  }

  /**
   * A run that does not raise lays the entries of the bills it reads over the starting map:
   * what it writes does not depend on what was there before (for entries that hold only the
   * three fields).
   */
  lemma {:induction false} RunOverlay(meta: Meta, docs: seq<Value>)
    requires EntriesWithin(meta, ENTRY_FIELDS) && Run(meta, docs).outcome.Pass?
    ensures Run(meta, docs).meta == meta + Run(map[], docs).meta
    decreases |docs|
  {
    if docs == [] {
      assert meta + map[] == meta;
    } else {
      var pre, doc := docs[..|docs| - 1], docs[|docs| - 1];
      RunOutcomeIndependent(meta, map[], docs);
      RunOutcomeIndependent(meta, map[], pre);
      assert Run(meta, pre).outcome.Pass?;
      RunOverlay(meta, pre);
      var w := Run(map[], pre).meta;
      RunEntriesWithin(map[], pre);
      StepOverlay(meta, w, doc);
    }
  }

  /** Re-running over the same documents leaves `billsMeta` as the first run left it. */
  lemma RunIdempotent(meta: Meta, docs: seq<Value>)
    requires EntriesWithin(meta, ENTRY_FIELDS) && Run(meta, docs).outcome.Pass?
    ensures Run(Run(meta, docs).meta, docs).meta == Run(meta, docs).meta
  {
    var m1 := Run(meta, docs).meta;
    RunOverlay(meta, docs);
    RunEntriesWithin(meta, docs);
    RunOutcomeIndependent(m1, meta, docs);
    RunOverlay(m1, docs);
    var w := Run(map[], docs).meta;
    assert (meta + w) + w == meta + w;
  }

  // ----- the aggregator -----

  /** The directory `updateBillsMeta` walks. */
  const WALK_ROOT: string := "../congress/data"

  lemma {:induction false} CountAppend(a: string, b: string, c: char)
    ensures Count(a + b, c) == Count(a, c) + Count(b, c)
    decreases |a|
  {
    if a == [] {
      assert a + b == b;
    } else {
      assert (a + b)[1..] == a[1..] + b;
      CountAppend(a[1..], b, c);
    }
  }

  lemma CountSlashCons(x: string)
    ensures Count("/" + x, '/') == 1 + Count(x, '/')
  {
    assert ("/" + x)[1..] == x;
  }

  /** A path with two slashes in it has at least three segments. */
  lemma {:induction false} CountTwoSlashes(a: string, b: string, rest: string)
    ensures Count(a + "/" + b + "/" + rest, '/') >= 2
  {
    assert a + "/" + b + "/" + rest == a + ("/" + (b + ("/" + rest)));
    CountAppend(a, "/" + (b + ("/" + rest)), '/');
    CountSlashCons(b + ("/" + rest));
    CountAppend(b, "/" + rest, '/');
    CountSlashCons(rest);
  }

  /** No directory under the walk root makes `getTopBillLevel` raise: it has three segments. */
  lemma TopBillLevelUnderRoot(dirName: string)
    requires WALK_ROOT <= dirName
    ensures GetTopBillLevel(dirName).Success?
  {
    var rest := dirName[|WALK_ROOT|..];
    assert dirName == WALK_ROOT + rest;
    assert WALK_ROOT + rest == ".." + "/" + "congress" + "/" + ("data" + rest);
    CountTwoSlashes("..", "congress", "data" + rest);
    TopBillLevelFails(dirName);
  }

  /** `loadJSON` on each processed path, in order. */
  function LoadAll(calls: seq<(string, string)>, load: (string, string) -> Value): (docs: seq<Value>)
    ensures |docs| == |calls|
    ensures forall i :: 0 <= i < |calls| ==> docs[i] == load(calls[i].0, calls[i].1)
    decreases |calls|
  {
    if calls == [] then []
    else LoadAll(calls[..|calls| - 1], load) + [load(calls[|calls| - 1].0, calls[|calls| - 1].1)]
  }

  lemma LoadAllSplit(calls: seq<(string, string)>, i: nat, load: (string, string) -> Value)
    requires i <= |calls|
    ensures LoadAll(calls, load) == LoadAll(calls[..i], load) + LoadAll(calls[i..], load)
  {
    var a, b, c := LoadAll(calls, load), LoadAll(calls[..i], load), LoadAll(calls[i..], load);
    forall j | 0 <= j < |a| ensures a[j] == (b + c)[j] {
      if j < i {
        assert calls[..i][j] == calls[j];
      } else {
        assert calls[i..][j - i] == calls[j];
      }
    }
  }

  /** One more call extends the run by one Step, while the run has not raised. */
  lemma RunSnoc(meta: Meta, calls: seq<(string, string)>, i: nat, load: (string, string) -> Value)
    requires i < |calls| && Run(meta, LoadAll(calls[..i], load)).outcome.Pass?
    ensures var prev := Run(meta, LoadAll(calls[..i], load));
      var s := Step(prev.meta, load(calls[i].0, calls[i].1));
      Run(meta, LoadAll(calls[..i + 1], load)) == RunResult(s.meta, prev.saves + (if s.saved then [s.meta] else []), s.outcome)
  {
    assert calls[..i + 1][..i] == calls[..i];
  }

  /** A run that stopped early, or read every call, is the run over all the calls. */
  lemma RunOfPrefix(meta: Meta, calls: seq<(string, string)>, i: nat, load: (string, string) -> Value)
    requires i <= |calls|
    requires i < |calls| ==> Run(meta, LoadAll(calls[..i], load)).outcome.Fail?
    ensures Run(meta, LoadAll(calls, load)) == Run(meta, LoadAll(calls[..i], load))
  {
    if i < |calls| {
      LoadAllSplit(calls, i, load);
      RunStopsAtFailure(meta, LoadAll(calls[..i], load), LoadAll(calls[i..], load));
    } else {
      assert calls[..i] == calls;
    }
  }

  /** With every listed directory under the walk root, the directory filter never raises. */
  lemma WalkFilterTotal(listing: Listing)
    requires forall i :: 0 <= i < |listing| ==> WALK_ROOT <= listing[i].0
    ensures forall i :: 0 <= i < |listing| ==> GetTopBillLevel(listing[i].0).Success?
  {
    forall i | 0 <= i < |listing| ensures GetTopBillLevel(listing[i].0).Success? {
      TopBillLevelUnderRoot(listing[i].0);
    }
  }

  /**
   * `updateBillsMeta` with its nested `addToBillsMeta`: `billsMeta` is the map being filled,
   * `saves` the snapshots written by `saveBillsMeta`, oldest first. Reading `data.json` is the
   * `load` parameter.
   */
  class Aggregator {
    var billsMeta: Meta
    var saves: seq<Meta>

    constructor (initial: Meta)
      ensures billsMeta == initial && saves == []
    {
      billsMeta := initial;
      saves := [];
    }

    /** `saveBillsMeta(billsMeta)`: writes a snapshot of the current map. */
    method SaveBillsMeta()
      modifies this
      ensures billsMeta == old(billsMeta) && saves == old(saves) + [billsMeta]
    {
      saves := saves + [billsMeta];
    }

    /** `addToBillsMeta(dirName, fileName)`: one Step on the loaded document. */
    method AddToBillsMeta(dirName: string, fileName: string, load: (string, string) -> Value)
      returns (outcome: Outcome)
      modifies this
      ensures var s := Step(old(billsMeta), load(dirName, fileName));
        && billsMeta == s.meta && outcome == s.outcome
        && saves == old(saves) + (if s.saved then [s.meta] else [])
    {
      var billDict := load(dirName, fileName);
      if !billDict.Dict? {
        return Fail(AttributeError);
      }
      var billCongressTypeNumber := GetBillCongressTypeNumber(billDict.fields);
      if billCongressTypeNumber.Failure? {
        return Fail(billCongressTypeNumber.error);
      }
      if billCongressTypeNumber.value.None? || billCongressTypeNumber.value.value == "" {
        return Pass;
      }
      var k := billCongressTypeNumber.value.value;
      assert DocKey(billDict) == Some(k);
      outcome := FileUnder(k, billDict.fields);
    }

    /** The body of `addToBillsMeta` once the bill's key `k` is known. */
    method FileUnder(k: string, billDict: PyDict) returns (outcome: Outcome)
      modifies this
      ensures var s := FileBill(old(billsMeta), k, billDict);
        && billsMeta == s.meta && outcome == s.outcome
        && saves == old(saves) + (if s.saved then [s.meta] else [])
    {
      ghost var meta0 := billsMeta;
      if !(k in billsMeta && billsMeta[k] != map[]) {
        billsMeta := billsMeta[k := map[]];
      }
      // `billsMeta[k]` is one dict, updated in place by the three writes below
      var entry := billsMeta[k];
      assert entry == BaseEntry(meta0, k) && billsMeta == meta0[k := entry];
      var titles := GetBillTitles(billDict, true, "all");
      assert titles == Success(Get(billDict, "titles"));
      var titleItems := DictItems(titles.value);
      if titleItems.Failure? {
        FileBillTitlesFail(meta0, k, billDict);
        return Fail(titleItems.error);
      }
      ghost var e0 := entry;
      entry := entry["titles" := List(TitleTexts(titleItems.value))];
      billsMeta := billsMeta[k := entry];
      MapUpdateTwice(meta0, k, e0, entry);
      ghost var e1 := entry;
      entry := entry["titles_whole_bill" := List(WholeBillTitleTexts(titleItems.value))];
      billsMeta := billsMeta[k := entry];
      MapUpdateTwice(meta0, k, e1, entry);
      assert entry == WithTitles(BaseEntry(meta0, k), titleItems.value);
      var cosponsors := GetCosponsors(billDict, COSPONSOR_FIELDS);
      if cosponsors.Failure? {
        FileBillCosponsorsFail(meta0, k, billDict);
        return Fail(cosponsors.error);
      }
      ghost var withTitles := entry;
      entry := entry["cosponsors" := cosponsors.value];
      billsMeta := billsMeta[k := entry];
      MapUpdateTwice(meta0, k, withTitles, entry);
      var billCount := |billsMeta|;
      FileBillPass(meta0, k, billDict);
      if billCount % SAVE_ON_COUNT == 0 {
        SaveBillsMeta();
      }
      return Pass;
    }

    /**
     * `updateBillsMeta()`: walk the tree under WALK_ROOT, file every bill's `data.json`, and
     * save once more at the end. The first error stops everything and skips the final save.
     */
    method UpdateBillsMeta(listing: Listing, load: (string, string) -> Value) returns (outcome: Outcome)
      requires forall i :: 0 <= i < |listing| ==> WALK_ROOT <= listing[i].0
      modifies this
      ensures var run := Run(old(billsMeta), LoadAll(WalkCalls(listing, IsTopBillLevel, IsDataJson), load));
        && billsMeta == run.meta && outcome == run.outcome
        && saves == old(saves) + run.saves + (if run.outcome.Pass? then [run.meta] else [])
    {
      var calls := WalkBillDirs(listing, IsTopBillLevel, IsDataJson);
      outcome := ProcessFiles(calls, load);
      if outcome.Pass? {
        SaveBillsMeta();
      }
    }

    /** The current state is that of a run over `docs` from `meta0`, after the saves in `saves0`. */
    ghost predicate Tracks(meta0: Meta, saves0: seq<Meta>, outcome: Outcome, docs: seq<Value>)
      reads this
    {
      var run := Run(meta0, docs);
      billsMeta == run.meta && outcome == run.outcome && saves == saves0 + run.saves
    }

    /** The walk's `processFile` callback, `addToBillsMeta`, on each call in turn until one raises. */
    method ProcessFiles(calls: seq<(string, string)>, load: (string, string) -> Value) returns (outcome: Outcome)
      modifies this
      ensures var run := Run(old(billsMeta), LoadAll(calls, load));
        billsMeta == run.meta && outcome == run.outcome && saves == old(saves) + run.saves
    {
      ghost var meta0, saves0 := billsMeta, saves;
      outcome := Pass;
      var i := 0;
      while i < |calls| && outcome.Pass?
        invariant 0 <= i <= |calls|
        invariant Tracks(meta0, saves0, outcome, LoadAll(calls[..i], load))
      {
        RunSnoc(meta0, calls, i, load);
        outcome := AddToBillsMeta(calls[i].0, calls[i].1, load);
        i := i + 1;
      }
      RunOfPrefix(meta0, calls, i, load);
    }
  }
}
