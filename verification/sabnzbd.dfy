/**
 * The SABnzbd emulation (`Sabnzbd`): read-only views of the download
 * records in SABnzbd's wire schema (queue, history, categories, config),
 * and the add and delete requests, which build a record or look one up and
 * hand it to the `Torrents` service.
 *
 * Foreign formatting is passed in: `FileSizeHelper.FormatSize`, the
 * `ToString("0")` rendering of the progress, `Path.Combine`, and the
 * current culture's case-insensitive comparison, given as a key function
 * (`fold`) under which two category names are equal iff their keys are.
 */
module Sabnzbd {
  import opened Wrappers
  import opened Sequences
  import opened Text

  datatype DownloadType = Torrent | Nzb

  /** `TorrentStatus`; `OtherStatus` stands for every value the status table does not list. */
  datatype TorrentStatus =
    | Processing | WaitingForFileSelection | Downloading | Finished | Error | Queued
    | OtherStatus(code: int)

  datatype Download = Download(bytesTotal: int, bytesDone: int)

  /** The fields of a stored download record that the views and `Delete` read. */
  datatype DownloadRecord = DownloadRecord(
    torrentId: string,
    hash: string,
    rdName: Option<string>,
    category: Option<string>,
    downloadType: DownloadType,
    completed: Option<int>,
    rdProgress: Option<real>,
    rdStatus: Option<TorrentStatus>,
    downloads: seq<Download>)

  datatype Formatters = Formatters(formatSize: int -> string, formatPercent: real -> string)

  datatype QueueSlot = QueueSlot(
    index: int, nzoId: string, filename: string, size: string, sizeLeft: string,
    percentage: string, status: string, category: string, priority: string, timeLeft: string)

  datatype SabnzbdQueue = SabnzbdQueue(noOfSlots: int, slots: seq<QueueSlot>)

  datatype HistorySlot = HistorySlot(
    nzoId: string, name: string, size: string, status: string, category: string, path: string)

  datatype SabnzbdHistory = SabnzbdHistory(noOfSlots: int, totalSlots: int, slots: seq<HistorySlot>)

  const Wildcard: string := "*"

  // ---------------------------------------------------------------- queue and history

  /** A usenet download still in progress: it belongs in the queue. */
  predicate IsActiveNzb(t: DownloadRecord) {
    t.downloadType == Nzb && t.completed.None?
  }

  /** A completed usenet download: it belongs in the history. */
  predicate IsCompletedNzb(t: DownloadRecord) {
    t.downloadType == Nzb && t.completed.Some?
  }

  predicate IsNzb(t: DownloadRecord) {
    t.downloadType == Nzb
  }

  /** `Downloads.Sum(d => d.BytesTotal)`. */
  function TotalBytes(ds: seq<Download>): (r: int)
    ensures (forall i :: 0 <= i < |ds| ==> ds[i].bytesTotal >= 0) ==> r >= 0
  {
    if ds == [] then 0 else ds[0].bytesTotal + TotalBytes(ds[1..])
  }

  function DoneBytes(ds: seq<Download>): int {
    if ds == [] then 0 else ds[0].bytesDone + DoneBytes(ds[1..])
  }

  /** `Downloads.Sum(d => d.BytesTotal - d.BytesDone)`. */
  function LeftBytes(ds: seq<Download>): (r: int)
    ensures (forall i :: 0 <= i < |ds| ==> ds[i].bytesDone <= ds[i].bytesTotal) ==> r >= 0
  {
    if ds == [] then 0 else (ds[0].bytesTotal - ds[0].bytesDone) + LeftBytes(ds[1..])
  }

  /** The size left is the total size less what has been downloaded. */
  lemma {:induction false} LeftBytesIsTotalLessDone(ds: seq<Download>)
    ensures LeftBytes(ds) == TotalBytes(ds) - DoneBytes(ds)
  {
    if ds != [] {
      LeftBytesIsTotalLessDone(ds[1..]);
    }
  }

  /** The queue's status table. */
  function QueueStatus(status: Option<TorrentStatus>): (r: string)
    ensures r == "Propagating" <==> status == Some(Processing) || status == Some(WaitingForFileSelection)
    ensures r == "Completed" <==> status == Some(Finished)
    ensures r == "Downloading" <==> status == Some(Downloading)
    ensures r == "Failed" <==> status == Some(Error)
    ensures r == "Queued" <==> status == Some(Queued)
    ensures r == "" <==> status.None? || status.value.OtherStatus?
  {
    match status
    case Some(Processing) => "Propagating"
    case Some(Finished) => "Completed"
    case Some(Downloading) => "Downloading"
    case Some(WaitingForFileSelection) => "Propagating"
    case Some(Error) => "Failed"
    case Some(Queued) => "Queued"
    case _ => ""
  }

  function ToQueueSlot(t: DownloadRecord, index: int, fmt: Formatters): QueueSlot {
    QueueSlot(
      index := index,
      nzoId := t.hash,
      filename := t.rdName.GetOr(t.hash),
      size := fmt.formatSize(TotalBytes(t.downloads)),
      sizeLeft := fmt.formatSize(LeftBytes(t.downloads)),
      percentage := fmt.formatPercent(t.rdProgress.GetOr(0.0)),
      status := QueueStatus(t.rdStatus),
      category := t.category.GetOr(Wildcard),
      priority := "Normal",
      timeLeft := "0:00:00")
  }

  /**
   * `GetQueue` over the records `torrents.Get()` returned: one slot per
   * usenet download that has not completed, in input order, numbered from 0.
   */
  function GetQueue(torrents: seq<DownloadRecord>, fmt: Formatters): (queue: SabnzbdQueue)
    ensures queue.noOfSlots == |queue.slots| == |Where(torrents, IsActiveNzb)|
    ensures forall i :: 0 <= i < |queue.slots| ==>
      var t, slot := Where(torrents, IsActiveNzb)[i], queue.slots[i];
      && slot.index == i
      && slot.nzoId == t.hash
      && slot.filename == (if t.rdName.Some? then t.rdName.value else t.hash)
      && slot.size == fmt.formatSize(TotalBytes(t.downloads))
      && slot.sizeLeft == fmt.formatSize(TotalBytes(t.downloads) - DoneBytes(t.downloads))
      && slot.percentage == fmt.formatPercent(if t.rdProgress.Some? then t.rdProgress.value else 0.0)
      && slot.status == QueueStatus(t.rdStatus)
      && slot.category == (if t.category.Some? then t.category.value else "*")
      && slot.priority == "Normal" && slot.timeLeft == "0:00:00"
  {
    var active := Where(torrents, IsActiveNzb);
    var slots := seq(|active|, i requires 0 <= i < |active| => ToQueueSlot(active[i], i, fmt));
    forall i | 0 <= i < |active| ensures LeftBytes(active[i].downloads) == TotalBytes(active[i].downloads) - DoneBytes(active[i].downloads) {
      LeftBytesIsTotalLessDone(active[i].downloads);
    }
    SabnzbdQueue(|active|, slots)
  }

  function ToHistorySlot(t: DownloadRecord, fmt: Formatters): HistorySlot {
    HistorySlot(
      nzoId := t.hash,
      name := t.rdName.GetOr(t.hash),
      size := fmt.formatSize(TotalBytes(t.downloads)),
      status := "Completed",
      category := t.category.GetOr("Default"),
      path := t.category.GetOr("Default"))
  }

  /**
   * `GetHistory`: one slot per completed usenet download, in input order;
   * category and path both fall back to "Default".
   */
  function GetHistory(torrents: seq<DownloadRecord>, fmt: Formatters): (history: SabnzbdHistory)
    ensures history.noOfSlots == history.totalSlots == |history.slots| == |Where(torrents, IsCompletedNzb)|
    ensures forall i :: 0 <= i < |history.slots| ==>
      var t, slot := Where(torrents, IsCompletedNzb)[i], history.slots[i];
      && slot.nzoId == t.hash
      && slot.name == (if t.rdName.Some? then t.rdName.value else t.hash)
      && slot.size == fmt.formatSize(TotalBytes(t.downloads))
      && slot.status == "Completed"
      && slot.category == slot.path == (if t.category.Some? then t.category.value else "Default")
  {
    var completed := Where(torrents, IsCompletedNzb);
    SabnzbdHistory(|completed|, |completed|, Select(completed, t => ToHistorySlot(t, fmt)))
  }

  /**
   * Every usenet record shows up in exactly one of the two views, and no
   * torrent record shows up in either.
   */
  lemma {:induction false} QueueAndHistoryPartitionNzbs(torrents: seq<DownloadRecord>, fmt: Formatters)
    ensures |GetQueue(torrents, fmt).slots| + |GetHistory(torrents, fmt).slots| == |Where(torrents, IsNzb)|
  {
    CountsAddUp(torrents);
  }

  lemma {:induction false} CountsAddUp(torrents: seq<DownloadRecord>)
    ensures |Where(torrents, IsActiveNzb)| + |Where(torrents, IsCompletedNzb)| == |Where(torrents, IsNzb)|
  {
    if torrents != [] {
      CountsAddUp(torrents[1..]);
    }
  }

  /** A record is in the queue iff it is an unfinished usenet download, and in the history iff a finished one. */
  lemma ViewsHoldExactlyTheirRecords(torrents: seq<DownloadRecord>, t: DownloadRecord)
    ensures t in Where(torrents, IsActiveNzb) <==> t in torrents && t.downloadType == Nzb && t.completed.None?
    ensures t in Where(torrents, IsCompletedNzb) <==> t in torrents && t.downloadType == Nzb && t.completed.Some?
  {
    WhereMembership(torrents, IsActiveNzb, t);
    WhereMembership(torrents, IsCompletedNzb, t);
  }

  /** The views keep input order: the queue of `a + b` is the queue of `a` followed by that of `b`. */
  lemma QueueKeepsOrder(a: seq<DownloadRecord>, b: seq<DownloadRecord>)
    ensures Where(a + b, IsActiveNzb) == Where(a, IsActiveNzb) + Where(b, IsActiveNzb)
    ensures Where(a + b, IsCompletedNzb) == Where(a, IsCompletedNzb) + Where(b, IsCompletedNzb)
  {
    WhereAppend(a, b, IsActiveNzb);
    WhereAppend(a, b, IsCompletedNzb);
  }

  /** A usenet download with no category: "*" in the queue, "Default" in the history. */
  lemma MissingCategoryDefaultsDiffer(t: DownloadRecord, fmt: Formatters)
    requires t.downloadType == Nzb && t.category.None?
    ensures t.completed.None? ==>
      GetQueue([t], fmt).slots == [ToQueueSlot(t, 0, fmt)] && GetQueue([t], fmt).slots[0].category == "*"
    ensures t.completed.Some? ==>
      GetHistory([t], fmt).slots == [ToHistorySlot(t, fmt)] && GetHistory([t], fmt).slots[0].category == "Default"
  {
    assert [t][1..] == [];
  }

  /**
   * The history path is the category alone: a completed usenet download in
   * category "radarr" named "NZB 1" gets the path "radarr", not the save
   * path combined with the category and the name.
   */
  lemma HistoryPathIsCategoryOnly(t: DownloadRecord, fmt: Formatters)
    requires t.downloadType == Nzb && t.completed.Some?
    requires t.category == Some("radarr") && t.rdName == Some("NZB 1")
    ensures |GetHistory([t], fmt).slots| == 1 && GetHistory([t], fmt).slots[0].path == "radarr"
  {
    assert [t][1..] == [];
  }

  // ---------------------------------------------------------------- categories and config

  predicate IsNotEmpty(s: string) {
    s != []
  }

  predicate IsNotWildcard(s: string) {
    s != Wildcard
  }

  /**
   * The pieces of the categories setting: split on commas, empty pieces
   * dropped, then trimmed. A piece of blanks survives as "", because it
   * is trimmed after the empty pieces are removed.
   */
  function CategoryPieces(categories: Option<string>): seq<string> {
    Select(Where(SplitOn(categories.GetOr(""), ','), IsNotEmpty), Trim)
  }

  /** The names the setting offers are exactly the trimmed non-empty comma-separated pieces. */
  lemma CategoryPiecesAreTrimmedPieces(categories: Option<string>, p: string)
    ensures p in CategoryPieces(categories)
      <==> exists q :: q in SplitOn(categories.GetOr(""), ',') && q != [] && p == Trim(q)
  {
    var split := SplitOn(categories.GetOr(""), ',');
    var kept := Where(split, IsNotEmpty);
    if p in CategoryPieces(categories) {
      var q := SelectPreimage(kept, Trim, p);
      WhereMembership(split, IsNotEmpty, q);
    }
    if q :| q in split && q != [] && p == Trim(q) {
      WhereMembership(split, IsNotEmpty, q);
      SelectMembership(kept, Trim, q);
    }
  }

  /** No offered name holds a comma, and none starts or ends with white space. */
  lemma CategoryPiecesAreClean(categories: Option<string>, p: string)
    requires p in CategoryPieces(categories)
    ensures ',' !in p
    ensures p == [] || (!IsWhiteSpace(p[0]) && !IsWhiteSpace(p[|p| - 1]))
  {
    var split := SplitOn(categories.GetOr(""), ',');
    var q := SelectPreimage(Where(split, IsNotEmpty), Trim, p);
    WhereMembership(split, IsNotEmpty, q);
    NoSeparatorInTrim(q, ',');
  }

  /**
   * `GetCategories`: "*" first, then the category names of the setting
   * other than "*", de-duplicated under `fold` keeping each name's first
   * spelling, in the order they first appear.
   */
  method GetCategories(categories: Option<string>, fold: string -> string) returns (categoryList: seq<string>)
    ensures |categoryList| >= 1 && categoryList[0] == Wildcard
    ensures forall i :: 1 <= i < |categoryList| ==> categoryList[i] != Wildcard
    ensures forall i :: 1 <= i < |categoryList| ==> categoryList[i] in CategoryPieces(categories)
    ensures forall i, j :: 1 <= i < j < |categoryList| ==> fold(categoryList[i]) != fold(categoryList[j])
    ensures forall c :: c in CategoryPieces(categories) && c != Wildcard ==> fold(c) in KeysOf(categoryList[1..], fold)
    ensures categoryList == [Wildcard] + FirstOccurrences(Where(CategoryPieces(categories), IsNotWildcard), fold)
  {
    var named := Where(CategoryPieces(categories), IsNotWildcard);
    categoryList := DistinctBy(named, fold);
    DistinctByKeepsFirstOccurrences(named, fold);
    forall c | c in CategoryPieces(categories) && c != Wildcard ensures c in named {
      WhereMembership(CategoryPieces(categories), IsNotWildcard, c);
    }
    forall c | c in named ensures c in CategoryPieces(categories) {
      WhereMembership(CategoryPieces(categories), IsNotWildcard, c);
    }
    categoryList := [Wildcard] + categoryList;
    assert categoryList[1..] == DistinctBy(named, fold);
  }

  datatype SabnzbdCategory = SabnzbdCategory(name: string, order: int, dir: string)

  datatype SabnzbdMisc = SabnzbdMisc(completeDir: string, downloadDir: string, port: string, version: string)

  datatype SabnzbdConfig = SabnzbdConfig(misc: SabnzbdMisc, categories: seq<SabnzbdCategory>)

  /**
   * `GetConfig`: the save path as both directories, the listening port in
   * decimal, and one category entry per name of `GetCategories`, numbered
   * in that order, "*" with an empty directory and every other name with
   * its directory under the save path.
   */
  method GetConfig(categories: Option<string>, fold: string -> string, savePath: string, port: int,
                   combine: (string, string) -> string) returns (config: SabnzbdConfig)
    ensures config.misc == SabnzbdMisc(savePath, savePath, IntToString(port), "4.4.0")
    ensures |config.categories| >= 1 && config.categories[0] == SabnzbdCategory(Wildcard, 0, "")
    ensures forall i :: 0 <= i < |config.categories| ==> config.categories[i].order == i
    ensures forall i :: 1 <= i < |config.categories| ==>
      config.categories[i].dir == combine(savePath, config.categories[i].name)
    ensures Select(config.categories, (c: SabnzbdCategory) => c.name)
      == [Wildcard] + FirstOccurrences(Where(CategoryPieces(categories), IsNotWildcard), fold)
  {
    var categoryList := GetCategories(categories, fold);
    var entries := seq(|categoryList|, i requires 0 <= i < |categoryList| =>
      var c := categoryList[i];
      SabnzbdCategory(c, i, if c == Wildcard then "" else combine(savePath, c)));
    config := SabnzbdConfig(SabnzbdMisc(savePath, savePath, IntToString(port), "4.4.0"), entries);
    assert Select(config.categories, (c: SabnzbdCategory) => c.name) == categoryList;
  }

  // ---------------------------------------------------------------- add and delete

  datatype TorrentDownloadAction = DownloadAll | DownloadAvailableFiles | DownloadManual

  datatype TorrentFinishedAction = NoFinishedAction | RemoveAllTorrents | RemoveRealDebrid | RemoveClient

  /**
   * The settings `AddFile` and `AddUrl` copy into a new record. Enumerations
   * that are copied through unchanged are kept as their numeric codes.
   */
  datatype IntegrationDefaults = IntegrationDefaults(
    downloadClient: int,
    hostDownloadAction: int,
    finishedActionDelay: int,
    onlyDownloadAvailableFiles: bool,
    minFileSize: int,
    includeRegex: string,
    excludeRegex: string,
    torrentRetryAttempts: int,
    downloadRetryAttempts: int,
    deleteOnError: int,
    torrentLifetime: int,
    priority: int)

  /** The record `AddFile` and `AddUrl` hand to the `Torrents` service. */
  datatype NewTorrent = NewTorrent(
    category: Option<string>,
    downloadClient: int,
    hostDownloadAction: int,
    finishedActionDelay: int,
    downloadAction: TorrentDownloadAction,
    finishedAction: TorrentFinishedAction,
    downloadMinSize: int,
    includeRegex: string,
    excludeRegex: string,
    torrentRetryAttempts: int,
    downloadRetryAttempts: int,
    deleteOnError: int,
    lifetime: int,
    priority: Option<int>)

  /** The priority fallback: the request's priority, else the configured one if it is positive, else none. */
  function SubmissionPriority(priority: Option<int>, configured: int): (r: Option<int>)
    ensures priority.Some? ==> r == priority
    ensures priority.None? && configured > 0 ==> r == Some(configured)
    ensures priority.None? && configured <= 0 ==> r.None?
  {
    if priority.Some? then priority else if configured > 0 then Some(configured) else None
  }

  function NewSubmission(category: Option<string>, priority: Option<int>, defaults: IntegrationDefaults): (t: NewTorrent)
    ensures t.category == category
    ensures t.priority == SubmissionPriority(priority, defaults.priority)
    ensures t.finishedAction == NoFinishedAction
    ensures t.downloadAction == DownloadAvailableFiles <==> defaults.onlyDownloadAvailableFiles
    ensures t.downloadAction == DownloadAll <==> !defaults.onlyDownloadAvailableFiles
    ensures t.downloadClient == defaults.downloadClient
    ensures t.hostDownloadAction == defaults.hostDownloadAction
    ensures t.finishedActionDelay == defaults.finishedActionDelay
    ensures t.downloadMinSize == defaults.minFileSize
    ensures t.includeRegex == defaults.includeRegex && t.excludeRegex == defaults.excludeRegex
    ensures t.torrentRetryAttempts == defaults.torrentRetryAttempts
    ensures t.downloadRetryAttempts == defaults.downloadRetryAttempts
    ensures t.deleteOnError == defaults.deleteOnError
    ensures t.lifetime == defaults.torrentLifetime
  {
    NewTorrent(
      category := category,
      downloadClient := defaults.downloadClient,
      hostDownloadAction := defaults.hostDownloadAction,
      finishedActionDelay := defaults.finishedActionDelay,
      downloadAction := if defaults.onlyDownloadAvailableFiles then DownloadAvailableFiles else DownloadAll,
      finishedAction := NoFinishedAction,
      downloadMinSize := defaults.minFileSize,
      includeRegex := defaults.includeRegex,
      excludeRegex := defaults.excludeRegex,
      torrentRetryAttempts := defaults.torrentRetryAttempts,
      downloadRetryAttempts := defaults.downloadRetryAttempts,
      deleteOnError := defaults.deleteOnError,
      lifetime := defaults.torrentLifetime,
      priority := SubmissionPriority(priority, defaults.priority))
  }

  /** A request the emulation makes of the `Torrents` service. */
  datatype TorrentsCall =
    | AddNzbFileToDebridQueue(fileBytes: seq<bv8>, torrent: NewTorrent)
    | AddNzbLinkToDebridQueue(url: string, torrent: NewTorrent)
    | DeleteTorrent(torrentId: string, deleteData: bool, deleteRdTorrent: bool, deleteLocalFiles: bool)

  /**
   * The `Torrents` service as the emulation sees it: `getByHash` is what its
   * lookup answers, `assignHash` the hash it reports for an enqueued NZB,
   * and `calls` records every request made of it.
   */
  class Torrents {
    const getByHash: string -> Option<DownloadRecord>
    const assignHash: TorrentsCall -> string
    var calls: seq<TorrentsCall>

    constructor(getByHash: string -> Option<DownloadRecord>, assignHash: TorrentsCall -> string)
      ensures this.getByHash == getByHash && this.assignHash == assignHash && calls == []
    {
      this.getByHash := getByHash;
      this.assignHash := assignHash;
      calls := [];
    }

    method Enqueue(call: TorrentsCall) returns (hash: string)
      requires !call.DeleteTorrent?
      modifies this
      ensures calls == old(calls) + [call] && hash == assignHash(call)
    {
      calls := calls + [call];
      hash := assignHash(call);
    }

    method GetByHash(hash: string) returns (torrent: Option<DownloadRecord>)
      ensures torrent == getByHash(hash)
    {
      torrent := getByHash(hash);
    }

    method Delete(torrentId: string, deleteData: bool, deleteRdTorrent: bool, deleteLocalFiles: bool)
      modifies this
      ensures calls == old(calls) + [DeleteTorrent(torrentId, deleteData, deleteRdTorrent, deleteLocalFiles)]
    {
      calls := calls + [DeleteTorrent(torrentId, deleteData, deleteRdTorrent, deleteLocalFiles)];
    }
  }

  /** `AddFile`: enqueues the NZB file with a record built from the defaults, and returns the hash. */
  method AddFile(torrents: Torrents, fileBytes: seq<bv8>, category: Option<string>, priority: Option<int>,
                 defaults: IntegrationDefaults) returns (hash: string)
    modifies torrents
    ensures torrents.calls == old(torrents.calls) + [AddNzbFileToDebridQueue(fileBytes, NewSubmission(category, priority, defaults))]
    ensures hash == torrents.assignHash(AddNzbFileToDebridQueue(fileBytes, NewSubmission(category, priority, defaults)))
  {
    var torrent := NewSubmission(category, priority, defaults);
    hash := torrents.Enqueue(AddNzbFileToDebridQueue(fileBytes, torrent));
  }

  /** `AddUrl`: as `AddFile`, with a link to the NZB instead of its content. */
  method AddUrl(torrents: Torrents, url: string, category: Option<string>, priority: Option<int>,
                defaults: IntegrationDefaults) returns (hash: string)
    modifies torrents
    ensures torrents.calls == old(torrents.calls) + [AddNzbLinkToDebridQueue(url, NewSubmission(category, priority, defaults))]
    ensures hash == torrents.assignHash(AddNzbLinkToDebridQueue(url, NewSubmission(category, priority, defaults)))
  {
    var torrent := NewSubmission(category, priority, defaults);
    hash := torrents.Enqueue(AddNzbLinkToDebridQueue(url, torrent));
  }

  /** `Delete`: nothing when no record has the hash, else one delete of that record with every flag set. */
  method Delete(torrents: Torrents, hash: string)
    modifies torrents
    ensures torrents.getByHash(hash).None? ==> torrents.calls == old(torrents.calls)
    ensures torrents.getByHash(hash).Some? ==>
      torrents.calls == old(torrents.calls) + [DeleteTorrent(torrents.getByHash(hash).value.torrentId, true, true, true)]
  {
    var torrent := torrents.GetByHash(hash);
    if torrent.Some? {
      torrents.Delete(torrent.value.torrentId, true, true, true);
    }
  }

  // ---------------------------------------------------------------- the categories setting "TV, Music, *"

  lemma SplitExample()
    ensures SplitOn("TV, Music, *", ',') == ["TV", " Music", " *"]
  {
    assert "TV, Music, *" == "TV" + [','] + (" Music" + [','] + " *");
    SplitOnFirstSep("TV", " Music" + [','] + " *", ',');
    SplitOnFirstSep(" Music", " *", ',');
    SplitOnWithoutSep(" *", ',');
  }

  lemma TrimmedExample()
    ensures Select(["TV", " Music", " *"], Trim) == ["TV", "Music", "*"]
  {
    SelectOfThree("TV", " Music", " *", Trim);
    TrimOneLeadingBlank("TV", "TV");
    TrimOneLeadingBlank(" Music", "Music");
    TrimOneLeadingBlank(" *", "*");
  }

  lemma PiecesExample()
    ensures CategoryPieces(Some("TV, Music, *")) == ["TV", "Music", "*"]
  {
    var pieces := ["TV", " Music", " *"];
    calc {
      CategoryPieces(Some("TV, Music, *"));
      Select(Where(SplitOn("TV, Music, *", ','), IsNotEmpty), Trim);
      { SplitExample(); }
      Select(Where(pieces, IsNotEmpty), Trim);
      { WhereKeepsAll(pieces, IsNotEmpty); }
      Select(pieces, Trim);
      { TrimmedExample(); }
      ["TV", "Music", "*"];
    }
  }

  lemma NamesExample()
    ensures FirstOccurrences(Where(["TV", "Music", "*"], IsNotWildcard), AsciiLower) == ["TV", "Music"]
  {
    var named := Where(["TV", "Music", "*"], IsNotWildcard);
    assert ["TV", "Music", "*"][1..] == ["Music", "*"];
    assert ["Music", "*"][1..] == ["*"];
    assert named == ["TV", "Music"];
    assert AsciiLower("TV") == "tv";
    assert AsciiLower("Music") == "music";
    assert KeysOf(["TV"], AsciiLower) == {"tv"};
    assert ["TV", "Music"][..1] == ["TV"];
    assert ["TV"][..0] == [];
  }

  /**
   * A piece of blanks is not dropped: empty pieces are removed before the
   * pieces are trimmed, so it survives as an empty category name.
   */
  lemma {:induction false} BlankPieceSurvives(s: string)
    requires s != [] && forall i :: 0 <= i < |s| ==> IsWhiteSpace(s[i])
    ensures CategoryPieces(Some(s)) == [""]
  {
    assert !IsWhiteSpace(',');
    SplitOnWithoutSep(s, ',');
    WhereKeepsAll([s], IsNotEmpty);
    assert Select([s], Trim)[0] == Trim(s) == [];
  }

  /**
   * The setting "TV, Music, *" yields "*", "TV" and "Music", in that order:
   * the "*" of the setting is not repeated.
   */
  method CategoriesExample() returns (categoryList: seq<string>)
    ensures categoryList == ["*", "TV", "Music"]
  {
    PiecesExample();
    NamesExample();
    categoryList := GetCategories(Some("TV, Music, *"), AsciiLower);
    assert [Wildcard] + ["TV", "Music"] == ["*", "TV", "Music"];
  }
}
