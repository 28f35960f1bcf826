/** The Etherscan CSV exporter (scrapping/etherscan_scrapper.py): for every address it
    opens the transaction listing, reads the number of pages, clicks the CSV export of
    each page, waits for the download and renames it, and finally merges the page files
    and uploads the result to the remote store. */
module Etherscan {
  import opened Wrappers
  import opened Text
  import Browser

  type Row = seq<string>

  /** A file of the download folder: its creation time, and its rows when pandas can read it. */
  datatype Entry = Entry(ctime: int, rows: Option<seq<Row>>)

  /** The download folder, by file name. */
  type Folder = map<string, Entry>

  datatype Status = Pending | AlreadyExists | Success | Failed

  /** The dict kept per address: "status" always, "errors" once it has been set. */
  datatype AddressInfo = AddressInfo(status: Status, errors: Option<int>)

  const Initial := AddressInfo(Pending, None)

  /** What happened on one listing page after the driver was sent to it. */
  datatype PageOutcome =
    | DriverFailed                 // the page load, the wait for the export button or the click raised
    | Exported(polls: seq<Folder>) // the click went through; the folder as each poll of the wait saw it

  /** What the browser and the remote store do while one address is visited. */
  datatype Visit = Visit(
    addr: string,
    pagination: Option<string>, // href of the last pagination link; None when the listing page or the link fails
    pages: seq<PageOutcome>,    // the outcome of page p is at index p - 1
    uploadOk: bool,             // whether the upload of the merged file succeeds
    mergeTime: int)             // the creation time the merged file gets

  /** How `merge_csv_by_user` ended: nothing to merge, a page file pandas could not read
      (the exception leaves the method), or the upload succeeded or failed. */
  datatype MergeOutcome = NoFiles | Unreadable | Uploaded | UploadFailed

  function RemotePath(addr: string): string {
    "/exports/" + addr + "_transactions.csv"
  }

  function MergedName(addr: string): string {
    addr + "_transactions.csv"
  }

  function PagePrefix(addr: string): string {
    addr + "_transactions_"
  }

  function PageName(addr: string, page: int): string {
    PagePrefix(addr) + IntToString(page) + ".csv"
  }

  function ListingUrl(addr: string): string {
    "https://etherscan.io/txs?a=" + addr
  }

  function PageUrl(addr: string, page: int): string {
    ListingUrl(addr) + "&p=" + IntToString(page)
  }

  /** The page URLs of pages 1..n, in that order. */
  function PageUrls(addr: string, n: nat): seq<string>
    decreases n
  {
    if n == 0 then [] else PageUrls(addr, n - 1) + [PageUrl(addr, n)]
  }

  /** `os.path.join(dir, name)` for a plain file name. */
  function PathJoin(dir: string, name: string): string {
    if dir == "" || EndsWith(dir, "/") then dir + name else dir + "/" + name
  }

  /** glob's `*` does not list names that begin with a dot. */
  predicate Hidden(name: string) {
    |name| > 0 && name[0] == '.'
  }

  /** The names `glob(os.path.join(download_dir, '*'))` lists. */
  function Listing(folder: Folder): set<string> {
    set f | f in folder && !Hidden(f)
  }

  /** fnmatch of a name against `{addr}_transactions_*.csv`. */
  predicate MatchesPageGlob(addr: string, name: string) {
    StartsWith(name, PagePrefix(addr)) && EndsWith(name, ".csv") && |name| >= |PagePrefix(addr)| + 4
  }

  /** The page files `merge_csv_by_user` finds for an address. */
  function PageFiles(folder: Folder, addr: string): set<string> {
    set f | f in folder && MatchesPageGlob(addr, f)
  }

  /** The test the wait applies to the newest path: a finished CSV, not a partial download. */
  predicate CompletedDownload(path: string) {
    EndsWith(path, ".csv") && !Contains(path, "crdownload")
  }

  predicate IsNewest(folder: Folder, f: string) {
    f in Listing(folder) && forall g :: g in Listing(folder) ==> folder[g].ctime <= folder[f].ctime
  }

  /** A poll that does not end the wait: nothing is listed, or a newest entry is not a finished download. */
  predicate PollStalls(dir: string, folder: Folder) {
    Listing(folder) == {} || exists f :: f in folder && IsNewest(folder, f) && !CompletedDownload(PathJoin(dir, f))
  }

  /** `os.rename`: the entry moves to the new name, replacing whatever had that name. */
  function Renamed(folder: Folder, from: string, to: string): Folder
    requires from in folder
  {
    (folder - {from})[to := folder[from]]
  }

  predicate Readable(folder: Folder, files: seq<string>) {
    forall i :: 0 <= i < |files| ==> files[i] in folder && folder[files[i]].rows.Some?
  }

  /** The rows of the given files, file after file. */
  function MergedRows(folder: Folder, files: seq<string>): seq<Row>
    requires Readable(folder, files)
    decreases |files|
  {
    if files == [] then []
    else MergedRows(folder, files[..|files| - 1]) + folder[Last(files)].rows.value
  }

  /** A poll that ends the wait: a newest listed entry is a finished download. */
  predicate PollFinishes(dir: string, folder: Folder) {
    exists f :: f in folder && IsNewest(folder, f) && CompletedDownload(PathJoin(dir, f))
  }

  /** No two listed entries of a folder share the greatest creation time. */
  ghost predicate UniqueNewest(folder: Folder) {
    forall f, g :: IsNewest(folder, f) && IsNewest(folder, g) ==> f == g
  }

  /** The download wait of `page` over `polls` ends as `ok` says and turns the folder `before`
      into `after`. On success, every poll before the j-th stalled, and the j-th poll's newest
      entry is a finished download; it is renamed to the page's name. On the timeout, every
      poll stalled, and the folder is what the last poll saw. */
  predicate WaitStep(dir: string, addr: string, page: int, polls: seq<Folder>, before: Folder, ok: bool, after: Folder) {
    if ok then
      exists j, f :: 0 <= j < |polls| && f in polls[j]
        && (forall i :: 0 <= i < j ==> PollStalls(dir, polls[i]))
        && IsNewest(polls[j], f) && CompletedDownload(PathJoin(dir, f))
        && after == Renamed(polls[j], f, PageName(addr, page))
    else
      && (forall i :: 0 <= i < |polls| ==> PollStalls(dir, polls[i]))
      && after == (if polls == [] then before else Last(polls))
  }

  /** One iteration of the page loop: a page whose load, button wait or click raised fails and
      leaves the folder alone; an exported page ends as its download wait does. */
  predicate PageStep(dir: string, addr: string, page: int, outcome: PageOutcome, before: Folder, ok: bool, after: Folder) {
    match outcome
    case DriverFailed => !ok && after == before
    case Exported(polls) => WaitStep(dir, addr, page, polls, before, ok, after)
  }

  /** The page was exported and one of its polls saw a finished download as the newest entry. */
  predicate PageCompletes(dir: string, outcome: PageOutcome) {
    outcome.Exported? && exists j :: 0 <= j < |outcome.polls| && PollFinishes(dir, outcome.polls[j])
  }

  /** The page failed in the driver, or every poll of its download wait stalled. */
  predicate PageFails(dir: string, outcome: PageOutcome) {
    outcome.DriverFailed? || forall j :: 0 <= j < |outcome.polls| ==> PollStalls(dir, outcome.polls[j])
  }

  /** Each page counted a success completed its download, and each page counted a failure
      failed in the driver or timed out. */
  predicate Agrees(dir: string, v: Visit, results: seq<bool>) {
    forall k :: 0 <= k < |results| ==>
      if results[k] then PageCompletes(dir, PageAt(v, k + 1)) else PageFails(dir, PageAt(v, k + 1))
  }

  /** No poll of the visit sees two newest entries with the same creation time. */
  ghost predicate NoCtimeTies(v: Visit) {
    forall p :: PageAt(v, p).Exported? ==>
      forall j :: 0 <= j < |PageAt(v, p).polls| ==> UniqueNewest(PageAt(v, p).polls[j])
  }

  /** What `merge_csv_by_user` does to the folder `before` and the remote store `remoteBefore`.
      `files` are the page files glob found, each once. Nothing changes when there are none
      or one of them cannot be read. Otherwise their rows are merged in `files` order into
      `{addr}_transactions.csv`. The merged file is uploaded exactly when the upload
      succeeds, and then deleted locally. The page files are deleted either way. */
  ghost predicate Merged(addr: string, uploadOk: bool, now: int, before: Folder, remoteBefore: map<string, seq<Row>>,
                   outcome: MergeOutcome, files: seq<string>, after: Folder, remoteAfter: map<string, seq<Row>>) {
    && (forall f :: f in files <==> f in PageFiles(before, addr))
    && (forall i, j :: 0 <= i < j < |files| ==> files[i] != files[j])
    && (outcome == NoFiles <==> PageFiles(before, addr) == {})
    && (outcome == Unreadable <==> exists f :: f in PageFiles(before, addr) && before[f].rows.None?)
    && (outcome in {NoFiles, Unreadable} ==> after == before && remoteAfter == remoteBefore)
    && (outcome in {Uploaded, UploadFailed} ==>
      && Readable(before, files)
      && (outcome == Uploaded <==> uploadOk)
      && remoteAfter == (if uploadOk then remoteBefore[RemotePath(addr) := MergedRows(before, files)] else remoteBefore)
      && after ==
        (if uploadOk then before - {MergedName(addr)}
         else before[MergedName(addr) := Entry(now, Some(MergedRows(before, files)))])
        - PageFiles(before, addr))
  }

  // ---------------------------------------------------------------------------
  // The page policy of get_info

  /** `total_pages // 3`; for a positive divisor Dafny's `/` floors like Python's `//`. */
  function Threshold(totalPages: int): int {
    totalPages / 3
  }

  /** The number of pages `range(1, total_pages + 1)` runs over. */
  function PagesInRange(totalPages: int): nat {
    if totalPages < 0 then 0 else totalPages
  }

  /** The number of failed pages among the attempted ones. */
  function Failures(results: seq<bool>): nat
    decreases |results|
  {
    if results == [] then 0 else (if results[0] then 0 else 1) + Failures(results[1..])
  }

  /** `results[k]` is whether page k + 1 succeeded. A run is what the loop can produce:
      it never attempts more pages than the range holds, it attempts a page only while the
      failures so far are within the threshold, and it stops early only on exceeding it. */
  predicate ValidRun(totalPages: int, results: seq<bool>) {
    && |results| <= PagesInRange(totalPages)
    && (forall k :: 0 <= k < |results| ==> Failures(results[..k]) <= Threshold(totalPages))
    && (|results| == PagesInRange(totalPages) || Failures(results) > Threshold(totalPages))
  }

  /** `int(href.split("p=")[-1])`. */
  function ParsePageCount(href: string): Option<int> {
    ParseInt(Last(Split(href, "p=")))
  }

  function TotalPages(v: Visit): Option<int> {
    match v.pagination
    case None => None
    case Some(href) => ParsePageCount(href)
  }

  predicate NegativePageCount(v: Visit) {
    TotalPages(v).Some? && TotalPages(v).value < 0
  }

  /** The outcome of page p in a visit; a page the visit says nothing about fails in the driver. */
  function PageAt(v: Visit, page: int): PageOutcome {
    if 1 <= page <= |v.pages| then v.pages[page - 1] else DriverFailed
  }

  /** The record after the page loop and the merge, for a parsed page count. */
  function Conclude(info: AddressInfo, totalPages: int, results: seq<bool>, mergeRaised: bool): AddressInfo {
    var threshold := Threshold(totalPages);
    var errors := Failures(results);
    if errors <= threshold then
      (if mergeRaised then info.(status := Failed) else AddressInfo(Success, Some(errors)))
    else if results != [] then AddressInfo(Failed, Some(errors))
    else info
  }

  function Addresses(visits: seq<Visit>): set<string> {
    set i | 0 <= i < |visits| :: visits[i].addr
  }

  /** The last visit of `addr` (if any) had a negative page count: the only way its record can stay pending. */
  predicate MayStayPending(visits: seq<Visit>, addr: string)
    decreases |visits|
  {
    if visits == [] then true
    else if Last(visits).addr == addr then NegativePageCount(Last(visits))
    else MayStayPending(visits[..|visits| - 1], addr)
  }

  // ---------------------------------------------------------------------------
  // Lemmas about the policy

  lemma {:induction false} FailuresAppend(results: seq<bool>, ok: bool)
    ensures Failures(results + [ok]) == Failures(results) + (if ok then 0 else 1)
    decreases |results|
  {
    if results != [] {
      assert (results + [ok])[1..] == results[1..] + [ok];
      FailuresAppend(results[1..], ok);
    }
  }

  /** Attempting one more page while the failures are within the threshold keeps every
      earlier prefix within it, and adds one failure exactly when the page failed. */
  lemma PrefixesWithin(results: seq<bool>, ok: bool, threshold: int)
    requires forall k :: 0 <= k < |results| ==> Failures(results[..k]) <= threshold
    requires Failures(results) <= threshold
    ensures forall k :: 0 <= k < |results| + 1 ==> Failures((results + [ok])[..k]) <= threshold
    ensures Failures(results + [ok]) == Failures(results) + (if ok then 0 else 1)
  {
    FailuresAppend(results, ok);
    assert forall k :: 0 <= k <= |results| ==> (results + [ok])[..k] == results[..k];
  }

  /** An aborted run records exactly `threshold + 1` errors, and its last attempted page failed. */
  lemma AbortRecordsThresholdPlusOne(totalPages: int, results: seq<bool>)
    requires ValidRun(totalPages, results)
    requires results != [] && Failures(results) > Threshold(totalPages)
    ensures Failures(results) == Threshold(totalPages) + 1
    ensures !Last(results)
  {
    var n := |results| - 1;
    assert results == results[..n] + [results[n]];
    FailuresAppend(results[..n], results[n]);
  }

  /** No page is attempted after the failures first exceed the threshold. */
  lemma NothingAfterAbort(totalPages: int, results: seq<bool>, k: nat)
    requires ValidRun(totalPages, results)
    requires k < |results| && Failures(results[..k + 1]) > Threshold(totalPages)
    ensures k == |results| - 1
  {
  }

  /** A run that stays within the threshold attempted every page of the range. */
  lemma WithinThresholdAttemptsAll(totalPages: int, results: seq<bool>)
    requires ValidRun(totalPages, results) && Failures(results) <= Threshold(totalPages)
    ensures |results| == PagesInRange(totalPages)
  {
  }

  /** For a non-negative page count the record ends in a terminal status: success when the
      failures stay within `total_pages // 3` and the merge does not raise, failed with
      `threshold + 1` errors on abort, failed with the old errors when the merge raises. */
  lemma ConcludeTerminal(info: AddressInfo, totalPages: int, results: seq<bool>, mergeRaised: bool)
    requires ValidRun(totalPages, results) && totalPages >= 0
    ensures Conclude(info, totalPages, results, mergeRaised) ==
      if Failures(results) <= Threshold(totalPages) then
        (if mergeRaised then AddressInfo(Failed, info.errors) else AddressInfo(Success, Some(Failures(results))))
      else AddressInfo(Failed, Some(Threshold(totalPages) + 1))
    ensures Conclude(info, totalPages, results, mergeRaised).status != Pending
  {
    if Failures(results) > Threshold(totalPages) {
      AbortRecordsThresholdPlusOne(totalPages, results);
    }
  }

  /** A negative page count attempts no page and leaves the record as it was. */
  lemma NegativeCountLeavesRecord(info: AddressInfo, totalPages: int, results: seq<bool>, mergeRaised: bool)
    requires ValidRun(totalPages, results) && totalPages < 0
    ensures results == [] && Conclude(info, totalPages, results, mergeRaised) == info
  {
  }

  /** Every address ends in a terminal status when no page count is negative. */
  lemma {:induction false} NoneLeftPending(visits: seq<Visit>, addr: string)
    requires forall i :: 0 <= i < |visits| ==> !NegativePageCount(visits[i])
    requires addr in Addresses(visits)
    ensures !MayStayPending(visits, addr)
    decreases |visits|
  {
    var n := |visits| - 1;
    if visits[n].addr != addr {
      var i :| 0 <= i < |visits| && visits[i].addr == addr;
      assert visits[..n][i] == visits[i];
      NoneLeftPending(visits[..n], addr);
    }
  }

  /** The merge finds every renamed page file of its address, and never the merged file. */
  lemma PageFilesMatchGlob(addr: string, page: int)
    ensures MatchesPageGlob(addr, PageName(addr, page))
    ensures !MatchesPageGlob(addr, MergedName(addr))
  {
    var name := PageName(addr, page);
    assert name == PagePrefix(addr) + (IntToString(page) + ".csv");
    assert name[..|PagePrefix(addr)|] == PagePrefix(addr);
    var merged, prefix := MergedName(addr), PagePrefix(addr);
    assert merged[..|prefix|][|addr| + 13] == '.';
    assert prefix[|addr| + 13] == '_';
  }

  /** The page count read from a pagination href that ends in `p=<n>` is n. */
  lemma PageCountFromHref(base: string, n: nat)
    ensures ParsePageCount(base + "p=" + NatToString(n)) == Some(n)
  {
    var digits := NatToString(n);
    assert NoBorder("p=") by {
      forall k | 0 < k < 2 ensures "p="[..k] != "p="[2 - k..] {
        assert "p="[..k][0] == 'p' && "p="[2 - k..][0] == '=';
      }
    }
    SplitConcat(base, "p=", digits);
    assert forall i :: 0 <= i < |digits| ==> digits[i] != 'p';
    AbsentFirstChar(digits, "p=");
    SplitAbsent(digits, "p=");
    IntRoundTrip(n);
  }

  // ---------------------------------------------------------------------------
  // Scenarios of the page policy

  /** Ten pages with pages 2, 5 and 9 failing: three errors, within the threshold of three. */
  lemma TenPagesThreeFailures()
    ensures var results := [true, false, true, true, false, true, true, true, false, true];
      ValidRun(10, results) && Conclude(Initial, 10, results, false) == AddressInfo(Success, Some(3))
  {
    var results := [true, false, true, true, false, true, true, true, false, true];
    assert Failures(results) == 3;
    assert forall k :: 0 <= k < 10 ==> Failures(results[..k]) <= 3 by {
      forall k | 0 <= k < 10 ensures Failures(results[..k]) <= 3 {
        PrefixFailuresBounded(results, k);
      }
    }
  }

  /** Ten pages with pages 2, 5, 9 and 10 failing: the fourth failure aborts with four errors. */
  lemma TenPagesFourFailures()
    ensures var results := [true, false, true, true, false, true, true, true, false, false];
      ValidRun(10, results) && Conclude(Initial, 10, results, false) == AddressInfo(Failed, Some(4))
  {
    var results := [true, false, true, true, false, true, true, true, false, false];
    assert Failures(results) == 4;
    assert results[..9] + [false] == results;
    FailuresAppend(results[..9], false);
    forall k | 0 <= k < 10 ensures Failures(results[..k]) <= 3 {
      PrefixFailuresBounded(results[..9], k);
      assert results[..9][..k] == results[..k];
    }
  }

  lemma {:induction false} PrefixFailuresBounded(results: seq<bool>, k: nat)
    requires k <= |results|
    ensures Failures(results[..k]) <= Failures(results)
    decreases |results|
  {
    if k > 0 {
      assert results[..k][1..] == results[1..][..k - 1];
      PrefixFailuresBounded(results[1..], k - 1);
    }
  }

  /** A page step that counts a success completed its download, and one that counts a
      failure failed in the driver or timed out. */
  lemma StepAgrees(dir: string, addr: string, page: int, outcome: PageOutcome, before: Folder, ok: bool, after: Folder)
    requires PageStep(dir, addr, page, outcome, before, ok, after)
    ensures if ok then PageCompletes(dir, outcome) else PageFails(dir, outcome)
  {
    if ok {
      var j, f :| 0 <= j < |outcome.polls| && f in outcome.polls[j]
        && IsNewest(outcome.polls[j], f) && CompletedDownload(PathJoin(dir, f));
      assert PollFinishes(dir, outcome.polls[j]);
    }
  }

  /** The pages attempted so far, as `PageStep`s chained through the folders between them. */
  ghost predicate Steps(dir: string, v: Visit, results: seq<bool>, folders: seq<Folder>) {
    && |folders| == |results| + 1
    && forall k :: 0 <= k < |results| ==>
      PageStep(dir, v.addr, k + 1, PageAt(v, k + 1), folders[k], results[k], folders[k + 1])
  }

  lemma StepsAppend(dir: string, v: Visit, results: seq<bool>, folders: seq<Folder>, ok: bool, after: Folder)
    requires Steps(dir, v, results, folders)
    requires PageStep(dir, v.addr, |results| + 1, PageAt(v, |results| + 1), Last(folders), ok, after)
    ensures Steps(dir, v, results + [ok], folders + [after])
  {
    var r, f := results + [ok], folders + [after];
    forall k | 0 <= k < |r|
      ensures PageStep(dir, v.addr, k + 1, PageAt(v, k + 1), f[k], r[k], f[k + 1])
    {
      if k < |results| {
        assert f[k] == folders[k] && f[k + 1] == folders[k + 1] && r[k] == results[k];
      }
    }
  }

  lemma AgreesAppend(dir: string, v: Visit, results: seq<bool>, ok: bool)
    requires Agrees(dir, v, results)
    requires if ok then PageCompletes(dir, PageAt(v, |results| + 1)) else PageFails(dir, PageAt(v, |results| + 1))
    ensures Agrees(dir, v, results + [ok])
  {
    var r := results + [ok];
    assert forall k :: 0 <= k < |results| ==> r[k] == results[k];
  }

  /** Without creation-time ties a page cannot both complete and time out. */
  lemma CompletesOrFails(dir: string, outcome: PageOutcome)
    requires outcome.Exported? ==> forall j :: 0 <= j < |outcome.polls| ==> UniqueNewest(outcome.polls[j])
    ensures !(PageCompletes(dir, outcome) && PageFails(dir, outcome))
  {
    if PageCompletes(dir, outcome) {
      var j :| 0 <= j < |outcome.polls| && PollFinishes(dir, outcome.polls[j]);
      var folder := outcome.polls[j];
      var f :| f in folder && IsNewest(folder, f) && CompletedDownload(PathJoin(dir, f));
      assert f in Listing(folder);
      assert !PollStalls(dir, folder);
    }
  }

  /** Two valid runs that agree on the pages both attempted attempted the same pages: the
      shorter one would have stopped within the threshold. */
  lemma SameLength(totalPages: int, r1: seq<bool>, r2: seq<bool>, m: nat)
    requires ValidRun(totalPages, r1) && ValidRun(totalPages, r2)
    requires m == (if |r1| < |r2| then |r1| else |r2|) && r1[..m] == r2[..m]
    ensures |r1| == |r2|
  {
    assert r1[..|r1|] == r1 && r2[..|r2|] == r2;
  }

  /** When no poll sees a creation-time tie, the visit decides the attempts: two valid runs
      that both agree with the page outcomes are the same run. */
  lemma RunDetermined(dir: string, v: Visit, totalPages: int, r1: seq<bool>, r2: seq<bool>)
    requires NoCtimeTies(v)
    requires ValidRun(totalPages, r1) && Agrees(dir, v, r1)
    requires ValidRun(totalPages, r2) && Agrees(dir, v, r2)
    ensures r1 == r2
  {
    var m := if |r1| < |r2| then |r1| else |r2|;
    forall k | 0 <= k < m
      ensures r1[k] == r2[k]
    {
      CompletesOrFails(dir, PageAt(v, k + 1));
    }
    assert r1[..m] == r2[..m];
    SameLength(totalPages, r1, r2, m);
    assert r1 == r1[..m] && r2 == r2[..m];
  }

  /** Distinct addresses have distinct remote paths. */
  lemma RemotePathInjective(a: string, b: string)
    ensures RemotePath(a) == RemotePath(b) ==> a == b
  {
    if RemotePath(a) == RemotePath(b) {
      assert a == RemotePath(a)[9..9 + |a|];
      assert b == RemotePath(b)[9..9 + |b|];
    }
  }

  predicate DistinctAddresses(visits: seq<Visit>) {
    forall i, j :: 0 <= i < j < |visits| ==> visits[i].addr != visits[j].addr
  }

  /** The record one visit turns `info` into, with the results of its pages and the outcome
      of its merge, given whether the address's remote file existed beforehand: an existing
      file gives `already_exists` and no page, an unreadable page count `failed` and no
      page, and otherwise the pages form a valid run that agrees with their outcomes, the
      merge runs exactly when the failures stay within the threshold, and the record is the
      conclusion of the run. */
  ghost predicate Recorded(dir: string, v: Visit, existed: bool, info: AddressInfo, run: seq<bool>,
                           merge: Option<MergeOutcome>, info': AddressInfo) {
    if existed then info' == info.(status := AlreadyExists) && run == [] && merge == None
    else match TotalPages(v)
      case None => info' == info.(status := Failed) && run == [] && merge == None
      case Some(n) =>
        && ValidRun(n, run) && Agrees(dir, v, run)
        && (merge.Some? <==> Failures(run) <= Threshold(n))
        && info' == Conclude(info, n, run, merge == Some(Unreadable))
  }

  // ---------------------------------------------------------------------------
  // One pass of get_info's loop body, and what the passes so far have established

  /** What one pass over an address leaves behind: whether its remote file existed, the
      record before and after, the page results, the merge outcome, the download folder
      before each page and after the page loop, and the page files the merge found. */
  datatype Pass = Pass(existed: bool, prior: AddressInfo, record: AddressInfo, run: seq<bool>,
                       merge: Option<MergeOutcome>, folders: seq<Folder>, files: seq<string>)

  /** The whole effect of one pass over visit `v`, from the folder `before` and the store
      `remoteBefore` to `after` and `remoteAfter`: the record follows `Recorded`, an existing
      remote file or an unreadable page count leaves folder and store alone, and otherwise
      the page loop steps the folder page by page and the merge, when it runs, takes the
      folder the loop left. */
  ghost predicate Visited(dir: string, v: Visit, pass: Pass, before: Folder, remoteBefore: map<string, seq<Row>>,
                          after: Folder, remoteAfter: map<string, seq<Row>>) {
    && pass.existed == (RemotePath(v.addr) in remoteBefore)
    && Recorded(dir, v, pass.existed, pass.prior, pass.run, pass.merge, pass.record)
    && (pass.existed || TotalPages(v).None? ==> after == before && remoteAfter == remoteBefore)
    && (!pass.existed && TotalPages(v).Some? ==>
      && Steps(dir, v, pass.run, pass.folders) && pass.folders[0] == before
      && (pass.merge.None? ==> after == Last(pass.folders) && remoteAfter == remoteBefore)
      && (pass.merge.Some? ==>
        Merged(v.addr, v.uploadOk, v.mergeTime, Last(pass.folders), remoteBefore, pass.merge.value, pass.files, after, remoteAfter)))
  }

  /** The pages one pass opens: none when the remote file existed, otherwise the listing and
      then each page it exported. */
  function VisitUrls(v: Visit, pass: Pass): seq<string> {
    if pass.existed then [] else [ListingUrl(v.addr)] + PageUrls(v.addr, |pass.run|)
  }

  /** The pages the passes so far opened, in order. */
  function VisitsUrls(visits: seq<Visit>, passes: seq<Pass>): seq<string>
    requires |passes| <= |visits|
    decreases |passes|
  {
    if passes == [] then [] else VisitsUrls(visits, passes[..|passes| - 1]) + VisitUrls(visits[|passes| - 1], Last(passes))
  }

  /** Pass k took the folder and the store from entry k to entry k + 1. */
  ghost predicate Chained(dir: string, visits: seq<Visit>, passes: seq<Pass>, folders: seq<Folder>,
                          stores: seq<map<string, seq<Row>>>) {
    && |passes| <= |visits| && |folders| == |passes| + 1 && |stores| == |passes| + 1
    && forall k :: 0 <= k < |passes| ==>
      Visited(dir, visits[k], passes[k], folders[k], stores[k], folders[k + 1], stores[k + 1])
  }

  /** One record per address, and every record still pending explained by the last visit
      of its address so far. */
  ghost predicate RecordsKept(visits: seq<Visit>, i: nat, info: map<string, AddressInfo>) {
    && i <= |visits|
    && info.Keys == Addresses(visits)
    && (forall a :: a in info && info[a].status == Pending ==> MayStayPending(visits[..i], a))
  }

  /** The remote store is the one before the call grown by the uploads so far, and, for
      distinct addresses, the addresses still to visit have not been uploaded by it. */
  ghost predicate RemoteGrown(visits: seq<Visit>, i: nat, existing: map<string, seq<Row>>, remote: map<string, seq<Row>>,
                              passes: seq<Pass>) {
    && i <= |visits| && |passes| == i
    && remote.Keys == existing.Keys + UploadedPaths(visits, passes)
    && (forall p :: p in existing && p !in UploadedPaths(visits, passes) ==> remote[p] == existing[p])
    && (DistinctAddresses(visits) ==> forall j :: i <= j < |visits| ==>
      (RemotePath(visits[j].addr) in remote <==> RemotePath(visits[j].addr) in existing))
  }

  /** For distinct addresses: each of the first i passes started from the initial record and
      the store before the call, and left its record in place; the others are still initial. */
  ghost predicate RecordsDecided(visits: seq<Visit>, i: nat, existing: map<string, seq<Row>>,
                                 info: map<string, AddressInfo>, passes: seq<Pass>) {
    && i <= |visits| && |passes| == i
    && info.Keys == Addresses(visits)
    && (DistinctAddresses(visits) ==>
      && (forall j :: i <= j < |visits| ==> info[visits[j].addr] == Initial)
      && (forall j :: 0 <= j < i ==>
        && passes[j].prior == Initial
        && passes[j].existed == (RemotePath(visits[j].addr) in existing)
        && info[visits[j].addr] == passes[j].record))
  }

  lemma PendingStep(visits: seq<Visit>, i: nat, info: map<string, AddressInfo>, record: AddressInfo)
    requires RecordsKept(visits, i, info) && i < |visits|
    requires record.status == Pending ==> info[visits[i].addr].status == Pending && NegativePageCount(visits[i])
    ensures RecordsKept(visits, i + 1, info[visits[i].addr := record])
  {
    assert visits[..i + 1][..i] == visits[..i];
    assert Last(visits[..i + 1]) == visits[i];
  }

  lemma RemoteStep(visits: seq<Visit>, i: nat, existing: map<string, seq<Row>>, before: map<string, seq<Row>>,
                   after: map<string, seq<Row>>, passes: seq<Pass>, pass: Pass)
    requires RemoteGrown(visits, i, existing, before, passes) && i < |visits|
    requires pass.merge != Some(Uploaded) ==> after == before
    requires pass.merge == Some(Uploaded) ==>
      RemotePath(visits[i].addr) in after && after == before[RemotePath(visits[i].addr) := after[RemotePath(visits[i].addr)]]
    ensures RemoteGrown(visits, i + 1, existing, after, passes + [pass])
  {
    UploadedPathsStep(visits, passes, pass);
    if DistinctAddresses(visits) {
      forall j | i < j < |visits|
        ensures RemotePath(visits[j].addr) != RemotePath(visits[i].addr)
      {
        RemotePathInjective(visits[j].addr, visits[i].addr);
      }
    }
  }

  lemma RecordsStep(visits: seq<Visit>, i: nat, existing: map<string, seq<Row>>, info: map<string, AddressInfo>,
                    passes: seq<Pass>, pass: Pass)
    requires RecordsDecided(visits, i, existing, info, passes) && i < |visits|
    requires DistinctAddresses(visits) ==>
      pass.prior == Initial && pass.existed == (RemotePath(visits[i].addr) in existing)
    ensures RecordsDecided(visits, i + 1, existing, info[visits[i].addr := pass.record], passes + [pass])
  {
    if DistinctAddresses(visits) {
      var info' := info[visits[i].addr := pass.record];
      forall j | 0 <= j < i
        ensures (passes + [pass])[j] == passes[j] && info'[visits[j].addr] == info[visits[j].addr]
      {
      }
    }
  }

  /** Visit i, as `ScrapeAddress` leaves it, extends the records and the store by one. */
  lemma TallyStep(visits: seq<Visit>, i: nat, existing: map<string, seq<Row>>,
                  remote: map<string, seq<Row>>, remote': map<string, seq<Row>>,
                  info: map<string, AddressInfo>, passes: seq<Pass>, pass: Pass)
    requires i < |visits| && visits[i].addr in info
    requires pass.prior == info[visits[i].addr] && pass.existed == (RemotePath(visits[i].addr) in remote)
    requires pass.record.status == Pending ==> info[visits[i].addr].status == Pending && NegativePageCount(visits[i])
    requires pass.merge != Some(Uploaded) ==> remote' == remote
    requires pass.merge == Some(Uploaded) ==>
      RemotePath(visits[i].addr) in remote' && remote' == remote[RemotePath(visits[i].addr) := remote'[RemotePath(visits[i].addr)]]
    ensures Tallied(visits, i, existing, info, passes, remote) ==>
      Tallied(visits, i + 1, existing, info[visits[i].addr := pass.record], passes + [pass], remote')
  {
    if Tallied(visits, i, existing, info, passes, remote) {
      PendingStep(visits, i, info, pass.record);
      RemoteStep(visits, i, existing, remote, remote', passes, pass);
      if DistinctAddresses(visits) {
        assert (RemotePath(visits[i].addr) in remote) == (RemotePath(visits[i].addr) in existing);
        assert info[visits[i].addr] == Initial;
      }
      RecordsStep(visits, i, existing, info, passes, pass);
    }
  }

  /** A pass that went from the last folder and store of the chain to `after` and
      `remoteAfter` extends the chain by one. */
  lemma ChainStep(dir: string, visits: seq<Visit>, passes: seq<Pass>, folders: seq<Folder>,
                  stores: seq<map<string, seq<Row>>>, pass: Pass, before: Folder, remoteBefore: map<string, seq<Row>>,
                  after: Folder, remoteAfter: map<string, seq<Row>>)
    requires Chained(dir, visits, passes, folders, stores) && |passes| < |visits|
    requires Last(folders) == before && Last(stores) == remoteBefore
    requires Visited(dir, visits[|passes|], pass, before, remoteBefore, after, remoteAfter)
    ensures Chained(dir, visits, passes + [pass], folders + [after], stores + [remoteAfter])
  {
    var passes', folders', stores' := passes + [pass], folders + [after], stores + [remoteAfter];
    assert forall k :: 0 <= k < |passes| ==> passes'[k] == passes[k];
    assert forall k :: 0 <= k <= |passes| ==> folders'[k] == folders[k] && stores'[k] == stores[k];
  }

  /** The pages a run of passes opened, followed by those of the next pass. */
  lemma UrlsAppend(visits: seq<Visit>, passes: seq<Pass>, pass: Pass)
    requires |passes| < |visits|
    ensures VisitsUrls(visits, passes + [pass]) == VisitsUrls(visits, passes) + VisitUrls(visits[|passes|], pass)
  {
    assert (passes + [pass])[..|passes|] == passes;
  }

  /** A browser history made of the `earlier` pages and those the passes opened, followed by
      the pages of the next pass, is the `earlier` pages and those the longer run of passes opened. */
  lemma HistoryStep(earlier: seq<string>, history: seq<string>, history': seq<string>, visits: seq<Visit>,
                    passes: seq<Pass>, pass: Pass)
    requires |passes| < |visits|
    requires history == earlier + VisitsUrls(visits, passes)
    requires history' == history + VisitUrls(visits[|passes|], pass)
    ensures history' == earlier + VisitsUrls(visits, passes + [pass])
  {
    var urls, next := VisitsUrls(visits, passes), VisitUrls(visits[|passes|], pass);
    calc {
      earlier + VisitsUrls(visits, passes + [pass]);
      == { UrlsAppend(visits, passes, pass); }
      earlier + (urls + next);
      == { ConcatAssociates(earlier, urls, next); }
      earlier + urls + next;
      history';
    }
  }

  lemma ConcatAssociates<T>(a: seq<T>, b: seq<T>, c: seq<T>)
    ensures (a + b) + c == a + (b + c)
  {
  }

  /** The records `get_info` has kept after its first i visits, against the store
      `existing` it started from. */
  ghost predicate Tallied(visits: seq<Visit>, i: nat, existing: map<string, seq<Row>>, info: map<string, AddressInfo>,
                          passes: seq<Pass>, remote: map<string, seq<Row>>) {
    && RecordsKept(visits, i, info) && RemoteGrown(visits, i, existing, remote, passes)
    && RecordsDecided(visits, i, existing, info, passes)
  }

  /** The passes so far chain the folder from `start` and the store from `existing` to the
      current ones. */
  ghost predicate ChainedFrom(dir: string, visits: seq<Visit>, start: Folder, existing: map<string, seq<Row>>,
                              passes: seq<Pass>, folders: seq<Folder>, stores: seq<map<string, seq<Row>>>,
                              downloads: Folder, remote: map<string, seq<Row>>) {
    && Chained(dir, visits, passes, folders, stores)
    && folders[0] == start && downloads == Last(folders)
    && stores[0] == existing && remote == Last(stores)
  }

  lemma ChainedFromStep(dir: string, visits: seq<Visit>, start: Folder, existing: map<string, seq<Row>>,
                        passes: seq<Pass>, folders: seq<Folder>, stores: seq<map<string, seq<Row>>>,
                        downloads: Folder, remote: map<string, seq<Row>>, pass: Pass, downloads': Folder, remote': map<string, seq<Row>>)
    requires ChainedFrom(dir, visits, start, existing, passes, folders, stores, downloads, remote) && |passes| < |visits|
    ensures Visited(dir, visits[|passes|], pass, downloads, remote, downloads', remote') ==>
      ChainedFrom(dir, visits, start, existing, passes + [pass], folders + [downloads'], stores + [remote'], downloads', remote')
  {
    if Visited(dir, visits[|passes|], pass, downloads, remote, downloads', remote') {
      ChainStep(dir, visits, passes, folders, stores, pass, downloads, remote, downloads', remote');
    }
  }

  /** After every visit, each pending record is explained by its address's last visit, and
      each record of a distinct address is what its visit decided from the initial record. */
  lemma VisitsRecorded(dir: string, visits: seq<Visit>, existing: map<string, seq<Row>>, info: map<string, AddressInfo>,
                       passes: seq<Pass>, remote: map<string, seq<Row>>, folders: seq<Folder>, stores: seq<map<string, seq<Row>>>)
    ensures Tallied(visits, |visits|, existing, info, passes, remote) && Chained(dir, visits, passes, folders, stores) ==>
      && (forall a :: a in info && info[a].status == Pending ==> MayStayPending(visits, a))
      && (DistinctAddresses(visits) ==> forall i :: 0 <= i < |visits| ==>
        Recorded(dir, visits[i], RemotePath(visits[i].addr) in existing, Initial, passes[i].run, passes[i].merge, info[visits[i].addr]))
  {
    assert visits[..|visits|] == visits;
    if Tallied(visits, |visits|, existing, info, passes, remote) && Chained(dir, visits, passes, folders, stores)
       && DistinctAddresses(visits) {
      forall i | 0 <= i < |visits|
        ensures Recorded(dir, visits[i], RemotePath(visits[i].addr) in existing, Initial, passes[i].run, passes[i].merge,
                         info[visits[i].addr])
      {
        assert Visited(dir, visits[i], passes[i], folders[i], stores[i], folders[i + 1], stores[i + 1]);
      }
    }
  }

  /** The remote paths the passes so far uploaded to. */
  function UploadedPaths(visits: seq<Visit>, passes: seq<Pass>): set<string>
    requires |passes| <= |visits|
  {
    set i | 0 <= i < |passes| && passes[i].merge == Some(Uploaded) :: RemotePath(visits[i].addr)
  }

  lemma UploadedPathsStep(visits: seq<Visit>, passes: seq<Pass>, pass: Pass)
    requires |passes| < |visits|
    ensures UploadedPaths(visits, passes + [pass]) ==
      UploadedPaths(visits, passes) + (if pass.merge == Some(Uploaded) then {RemotePath(visits[|passes|].addr)} else {})
  {
    var p' := passes + [pass];
    assert forall i :: 0 <= i < |passes| ==> p'[i] == passes[i];
  }

  // ---------------------------------------------------------------------------
  // Operations on the download folder

  /** `max(list_of_files, key=os.path.getctime)`: a listed entry with the greatest creation
      time (ties go to whichever glob lists first, an order the model leaves open). */
  method Latest(folder: Folder) returns (newest: string)
    requires Listing(folder) != {}
    ensures IsNewest(folder, newest)
  {
    var rest := Listing(folder);
    newest :| newest in rest;
    rest := rest - {newest};
    while rest != {}
      invariant rest <= Listing(folder) && newest in Listing(folder)
      invariant forall g :: g in Listing(folder) - rest ==> folder[g].ctime <= folder[newest].ctime
      decreases |rest|
    {
      var g :| g in rest;
      if folder[g].ctime > folder[newest].ctime {
        newest := g;
      }
      rest := rest - {g};
    }
  }

  /** The names glob returns for a set of matches, in its own (unspecified) order. */
  method ListInSomeOrder(names: set<string>) returns (listed: seq<string>)
    ensures forall f :: f in listed <==> f in names
    ensures forall i, j :: 0 <= i < j < |listed| ==> listed[i] != listed[j]
  {
    listed := [];
    var rest := names;
    while rest != {}
      invariant rest <= names
      invariant forall f :: f in listed <==> f in names && f !in rest
      invariant forall i, j :: 0 <= i < j < |listed| ==> listed[i] != listed[j]
      decreases |rest|
    {
      var f :| f in rest;
      listed := listed + [f];
      rest := rest - {f};
    }
  }

  /** The distinct names in a list of files. */
  function Names(files: seq<string>): set<string> {
    set f | f in files
  }

  /** A listing of a set of files is readable exactly when every file in the set is. */
  lemma ReadableListing(folder: Folder, files: seq<string>, names: set<string>)
    requires names <= folder.Keys
    requires forall f :: f in files <==> f in names
    ensures Readable(folder, files) <==> forall f :: f in names ==> folder[f].rows.Some?
  {
  }

  /** The reading half of `pd.concat(pd.read_csv(f) for f in files)`: the rows of every
      file in order, or `None` as soon as one of them cannot be parsed. */
  method ReadPages(folder: Folder, files: seq<string>) returns (rows: Option<seq<Row>>)
    requires forall i :: 0 <= i < |files| ==> files[i] in folder
    ensures rows.Some? <==> Readable(folder, files)
    ensures rows.Some? ==> rows.value == MergedRows(folder, files)
  {
    var merged: seq<Row> := [];
    var i := 0;
    while i < |files|
      invariant 0 <= i <= |files|
      invariant Readable(folder, files[..i])
      invariant merged == MergedRows(folder, files[..i])
    {
      var entry := folder[files[i]];
      if entry.rows.None? {
        return None;
      }
      assert files[..i + 1][..i] == files[..i];
      merged := merged + entry.rows.value;
      i := i + 1;
    }
    assert files[..|files|] == files;
    return Some(merged);
  }

  class EtherscanScrapper {
    const driver: Browser.Driver
    const downloadDir: string
    /** The download folder the browser saves into. */
    var downloads: Folder
    /** The remote store: path to the rows uploaded there. */
    var remote: map<string, seq<Row>>

    constructor (driver: Browser.Driver, downloadDir: string, downloads: Folder, remote: map<string, seq<Row>>)
      ensures this.driver == driver && this.downloadDir == downloadDir
      ensures this.downloads == downloads && this.remote == remote
    {
      this.driver := driver;
      this.downloadDir := downloadDir;
      this.downloads := downloads;
      this.remote := remote;
    }

    /** `_wait_for_download`: poll the folder until its newest entry is a finished CSV and
        rename that entry to `{addr}_transactions_{page}.csv`; `polls` are the folder states
        seen before the timeout passed, and running out of them is the `TimeoutError`. */
    method WaitForDownload(addr: string, page: int, polls: seq<Folder>) returns (downloaded: Option<string>, polled: nat)
      modifies this`downloads
      ensures downloaded.Some? ==>
        && 0 < polled <= |polls|
        && (forall j :: 0 <= j < polled - 1 ==> PollStalls(downloadDir, polls[j]))
        && IsNewest(polls[polled - 1], downloaded.value)
        && CompletedDownload(PathJoin(downloadDir, downloaded.value))
        && downloads == Renamed(polls[polled - 1], downloaded.value, PageName(addr, page))
      ensures downloaded.None? ==>
        && polled == |polls|
        && (forall j :: 0 <= j < |polls| ==> PollStalls(downloadDir, polls[j]))
        && downloads == (if polls == [] then old(downloads) else Last(polls))
      ensures WaitStep(downloadDir, addr, page, polls, old(downloads), downloaded.Some?, downloads)
    {
      var i := 0;
      while i < |polls|
        invariant 0 <= i <= |polls|
        invariant forall j :: 0 <= j < i ==> PollStalls(downloadDir, polls[j])
        invariant downloads == if i == 0 then old(downloads) else polls[i - 1]
      {
        var folder := polls[i];
        downloads := folder;
        if Listing(folder) != {} {
          var latest := Latest(folder);
          if CompletedDownload(PathJoin(downloadDir, latest)) {
            downloads := Renamed(folder, latest, PageName(addr, page));
            assert forall i' :: 0 <= i' < i ==> PollStalls(downloadDir, polls[i']);
            return Some(latest), i + 1;
          }
        }
        i := i + 1;
      }
      return None, |polls|;
    }

    /** `merge_csv_by_user`: concatenate the address's page files into
        `{addr}_transactions.csv`, upload it, delete the local merged file only when the
        upload succeeded, and delete the page files in either case. */
    method MergeCsvByUser(addr: string, uploadOk: bool, now: int) returns (outcome: MergeOutcome, files: seq<string>)
      modifies this`downloads, this`remote
      ensures Merged(addr, uploadOk, now, old(downloads), old(remote), outcome, files, downloads, remote)
    {
      var matched := PageFiles(downloads, addr);
      if matched == {} {
        return NoFiles, [];
      }
      files := ListInSomeOrder(matched);
      assert forall i :: 0 <= i < |files| ==> files[i] in matched;
      var read := ReadPages(downloads, files);
      ReadableListing(downloads, files, matched);
      if read.None? {
        return Unreadable, files;
      }
      var rows := read.value;
      PageFilesMatchGlob(addr, 0);
      downloads := downloads[MergedName(addr) := Entry(now, Some(rows))];
      if uploadOk {
        remote := remote[RemotePath(addr) := rows];
        downloads := downloads - {MergedName(addr)};
        outcome := Uploaded;
      } else {
        outcome := UploadFailed;
      }
      RemoveFiles(files);
    }

    /** `for f in files: os.remove(f)`. */
    method RemoveFiles(files: seq<string>)
      modifies this`downloads
      ensures downloads == old(downloads) - Names(files)
    {
      var i := 0;
      while i < |files|
        invariant 0 <= i <= |files|
        invariant downloads == old(downloads) - Names(files[..i])
      {
        assert Names(files[..i + 1]) == Names(files[..i]) + {files[i]};
        downloads := downloads - {files[i]};
        i := i + 1;
      }
      assert files[..|files|] == files;
    }


    /** One iteration of the page loop: open the page, click its export and wait for the
        download; `ok` is false when any of these raised. */
    method ExportPage(v: Visit, page: int) returns (ok: bool)
      modifies this`downloads, driver
      ensures driver.history == old(driver.history) + [PageUrl(v.addr, page)]
      ensures PageStep(downloadDir, v.addr, page, PageAt(v, page), old(downloads), ok, downloads)
      ensures if ok then PageCompletes(downloadDir, PageAt(v, page)) else PageFails(downloadDir, PageAt(v, page))
    {
      driver.Get(PageUrl(v.addr, page));
      ok := false;
      match PageAt(v, page) {
        case DriverFailed =>
        case Exported(polls) =>
          var downloaded, _ := WaitForDownload(v.addr, page, polls);
          ok := downloaded.Some?;
      }
      StepAgrees(downloadDir, v.addr, page, PageAt(v, page), old(downloads), ok, downloads);
    }

    /** The page loop of `get_info`: export pages 1, 2, … in order, counting the failed
        ones, and stop as soon as they exceed `total_pages // 3`. `folders[k]` is the
        download folder before page k + 1 and `folders[|results|]` the one after the loop. */
    method ExportPages(v: Visit, totalPages: int) returns (results: seq<bool>, aborted: bool, ghost folders: seq<Folder>)
      modifies this`downloads, driver
      ensures ValidRun(totalPages, results)
      ensures aborted <==> results != [] && Failures(results) > Threshold(totalPages)
      ensures driver.history == old(driver.history) + PageUrls(v.addr, |results|)
      ensures Agrees(downloadDir, v, results)
      ensures Steps(downloadDir, v, results, folders) && folders[0] == old(downloads) && downloads == Last(folders)
    {
      results := [];
      folders := [downloads];
      var errorCount := 0;
      var threshold := totalPages / 3;
      aborted := false;
      var page := 1;
      while page <= totalPages && !aborted
        decreases totalPages + 1 - page
        invariant 1 <= page && page - 1 <= PagesInRange(totalPages)
        invariant |results| == page - 1
        invariant errorCount == Failures(results)
        invariant forall k :: 0 <= k < |results| ==> Failures(results[..k]) <= threshold
        invariant aborted <==> results != [] && errorCount > threshold
        invariant !aborted ==> errorCount <= threshold || totalPages < 0
        invariant driver.history == old(driver.history) + PageUrls(v.addr, page - 1)
        invariant Agrees(downloadDir, v, results)
        invariant Steps(downloadDir, v, results, folders) && folders[0] == old(downloads) && downloads == Last(folders)
      {
        var ok := ExportPage(v, page);
        AgreesAppend(downloadDir, v, results, ok);
        StepsAppend(downloadDir, v, results, folders, ok, downloads);
        PrefixesWithin(results, ok, threshold);
        results := results + [ok];
        folders := folders + [downloads];
        if !ok {
          errorCount := errorCount + 1;
          if errorCount > threshold {
            aborted := true;
          }
        }
        page := page + 1;
      }
    }

    /** One pass of `get_info`'s loop body for one address: `pass` records what it did,
        with the download folder before each page and after the page loop, and the page
        files the merge found. */
    method ScrapeAddress(v: Visit, info: AddressInfo)
      returns (info': AddressInfo, results: seq<bool>, merge: Option<MergeOutcome>, ghost pass: Pass)
      modifies this, driver
      ensures pass.existed == (RemotePath(v.addr) in old(remote)) && pass.prior == info && pass.record == info'
      ensures pass.run == results && pass.merge == merge
      ensures Visited(downloadDir, v, pass, old(downloads), old(remote), downloads, remote)
      ensures driver.history == old(driver.history) + VisitUrls(v, pass)
      ensures merge != Some(Uploaded) ==> remote == old(remote)
      ensures merge == Some(Uploaded) ==>
        RemotePath(v.addr) in remote && remote == old(remote)[RemotePath(v.addr) := remote[RemotePath(v.addr)]]
      ensures info'.status == Pending ==> info.status == Pending && NegativePageCount(v)
    {
      results := [];
      merge := None;
      ghost var existed, folders, files := RemotePath(v.addr) in remote, [downloads], [];
      if RemotePath(v.addr) in remote {
        info' := info.(status := AlreadyExists);
      } else {
        driver.Get(ListingUrl(v.addr));
        var total := TotalPages(v);
        if total.None? {
          info' := info.(status := Failed);
        } else {
          var totalPages := total.value;
          var threshold := totalPages / 3;
          var aborted;
          results, aborted, folders := ExportPages(v, totalPages);
          var errorCount := Failures(results);
          info' := info;
          if aborted {
            info' := AddressInfo(Failed, Some(errorCount));
          }
          if errorCount <= threshold {
            var outcome, listed := MergeCsvByUser(v.addr, v.uploadOk, v.mergeTime);
            merge := Some(outcome);
            files := listed;
            if outcome == Unreadable {
              info' := info.(status := Failed);
            } else {
              info' := AddressInfo(Success, Some(errorCount));
            }
          }
          if totalPages >= 0 {
            ConcludeTerminal(info, totalPages, results, merge == Some(Unreadable));
          }
        }
      }
      pass := Pass(existed, info, info', results, merge, folders, files);
    }

    /** `get_info`: one record per address, each starting pending; `visits` lists the
        addresses in the order the set is iterated, with what the browser does for each.
        `passes[i]` is what visit i did, taking the download folder from `folders[i]` to
        `folders[i + 1]` and the remote store from `stores[i]` to `stores[i + 1]`. */
    method GetInfo(visits: seq<Visit>)
      returns (info: map<string, AddressInfo>, ghost passes: seq<Pass>, ghost folders: seq<Folder>,
               ghost stores: seq<map<string, seq<Row>>>)
      modifies this, driver
      ensures info.Keys == Addresses(visits)
      ensures Chained(downloadDir, visits, passes, folders, stores) && |passes| == |visits|
      ensures folders[0] == old(downloads) && downloads == Last(folders)
      ensures stores[0] == old(remote) && remote == Last(stores)
      ensures driver.history == old(driver.history) + VisitsUrls(visits, passes)
      ensures DistinctAddresses(visits) ==> forall i :: 0 <= i < |visits| ==>
        passes[i].prior == Initial && info[visits[i].addr] == passes[i].record
      ensures DistinctAddresses(visits) ==> forall i :: 0 <= i < |visits| ==>
        Recorded(downloadDir, visits[i], RemotePath(visits[i].addr) in old(remote), Initial, passes[i].run, passes[i].merge,
                 info[visits[i].addr])
      ensures forall a :: a in info && info[a].status == Pending ==> MayStayPending(visits, a)
      ensures remote.Keys == old(remote).Keys + UploadedPaths(visits, passes)
      ensures forall p :: p in old(remote) && p !in UploadedPaths(visits, passes) ==> remote[p] == old(remote)[p]
    {
      info := map a | a in Addresses(visits) :: Initial;
      passes, folders, stores := [], [downloads], [remote];
      var i := 0;
      while i < |visits|
        invariant i <= |visits| && Tallied(visits, i, old(remote), info, passes, remote)
        invariant ChainedFrom(downloadDir, visits, old(downloads), old(remote), passes, folders, stores, downloads, remote)
        invariant driver.history == old(driver.history) + VisitsUrls(visits, passes)
      {
        var v := visits[i];
        ghost var before, remoteBefore, historyBefore := downloads, remote, driver.history;
        var record, results, merge;
        ghost var pass;
        record, results, merge, pass := ScrapeAddress(v, info[v.addr]);
        TallyStep(visits, i, old(remote), remoteBefore, remote, info, passes, pass);
        ChainedFromStep(downloadDir, visits, old(downloads), old(remote), passes, folders, stores, before, remoteBefore,
                        pass, downloads, remote);
        HistoryStep(old(driver.history), historyBefore, driver.history, visits, passes, pass);
        info, passes := info[v.addr := record], passes + [pass];
        folders, stores := folders + [downloads], stores + [remote];
        i := i + 1;
      }
      VisitsRecorded(downloadDir, visits, old(remote), info, passes, remote, folders, stores);
    }
  }
}
