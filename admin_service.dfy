/**
 * The bookkeeping of `AdminService` (backend/app/services/admin_service.py).
 * What the service reads from the database, from S3 and from the OpenAI
 * endpoint comes in as values (rows, listings, probe outcomes); what it
 * computes from them -- the trend with its gaps filled, the orphan report,
 * the guarded deletion, the overall health status, the inactive-account
 * report and the audit-log retention cut -- is modelled here.
 */
module AdminService {
  import opened Wrappers
  import opened Strings
  import opened Sorting
  import opened JournalModel

  /* ---------------- `cleanup_old_audit_logs` ---------------- */

  datatype AuditLogEntry = AuditLogEntry(id: int, createdAt: Timestamp)

  /** `utcnow() - timedelta(days=retention_days)`. */
  function RetentionCutoff(now: Timestamp, retentionDays: int): Timestamp {
    now - retentionDays * SecondsPerDay
  }

  /** The entries strictly older than the cutoff, in table order. */
  function Expired(logs: seq<AuditLogEntry>, cutoff: Timestamp): seq<AuditLogEntry> {
    if logs == [] then []
    else Expired(logs[..|logs| - 1], cutoff)
         + (if logs[|logs| - 1].createdAt < cutoff then [logs[|logs| - 1]] else [])
  }

  /** The entries the cleanup keeps, in table order. */
  function Retained(logs: seq<AuditLogEntry>, cutoff: Timestamp): seq<AuditLogEntry> {
    if logs == [] then []
    else Retained(logs[..|logs| - 1], cutoff)
         + (if logs[|logs| - 1].createdAt < cutoff then [] else [logs[|logs| - 1]])
  }

  /**
   * `cleanup_old_audit_logs`: the table after the cleanup and the number of
   * entries deleted. The delete runs only when the count is positive.
   */
  function CleanupOldAuditLogs(logs: seq<AuditLogEntry>, now: Timestamp, retentionDays: int): (seq<AuditLogEntry>, nat) {
    var cutoff := RetentionCutoff(now, retentionDays);
    var count := |Expired(logs, cutoff)|;
    if count > 0 then (Retained(logs, cutoff), count) else (logs, 0)
  }

  lemma {:induction false} ExpiredExactly(logs: seq<AuditLogEntry>, cutoff: Timestamp)
    ensures forall e :: e in Expired(logs, cutoff) <==> e in logs && e.createdAt < cutoff
  {
    if logs != [] {
      var init := logs[..|logs| - 1];
      ExpiredExactly(init, cutoff);
      assert logs == init + [logs[|logs| - 1]];
    }
  }

  lemma {:induction false} RetainedExactly(logs: seq<AuditLogEntry>, cutoff: Timestamp)
    ensures forall e :: e in Retained(logs, cutoff) <==> e in logs && e.createdAt >= cutoff
  {
    if logs != [] {
      var init := logs[..|logs| - 1];
      RetainedExactly(init, cutoff);
      assert logs == init + [logs[|logs| - 1]];
    }
  }

  /** The table splits into the entries deleted and the ones kept. */
  lemma {:induction false} ExpiredRetainedCount(logs: seq<AuditLogEntry>, cutoff: Timestamp)
    ensures |Expired(logs, cutoff)| + |Retained(logs, cutoff)| == |logs|
  {
    if logs != [] {
      ExpiredRetainedCount(logs[..|logs| - 1], cutoff);
    }
  }

  /**
   * The cleanup deletes exactly the entries older than the cutoff and
   * reports how many; when none is older the table is left as it was.
   */
  lemma CleanupDeletesOnlyExpired(logs: seq<AuditLogEntry>, now: Timestamp, retentionDays: int)
    ensures var (kept, count) := CleanupOldAuditLogs(logs, now, retentionDays);
            var cutoff := RetentionCutoff(now, retentionDays);
            |kept| + count == |logs| &&
            (forall e :: e in kept <==> e in logs && e.createdAt >= cutoff) &&
            (count == 0 ==> kept == logs)
  {
    var cutoff := RetentionCutoff(now, retentionDays);
    ExpiredExactly(logs, cutoff);
    RetainedExactly(logs, cutoff);
    ExpiredRetainedCount(logs, cutoff);
    if |Expired(logs, cutoff)| == 0 {
      forall e | e in logs ensures e.createdAt >= cutoff {
        assert e !in Expired(logs, cutoff);
      }
    }
  }

  /* ---------------- `get_metrics_trend` ---------------- */

  datatype Metric = Users | Sessions | Documents | Audio | Conversations | Journals

  /** The keys of `metric_map`. */
  function ParseMetric(name: string): (r: Option<Metric>)
    ensures r.Some? <==> name in {"users", "sessions", "documents", "audio", "conversations", "journals"}
  {
    if name == "users" then Some(Users)
    else if name == "sessions" then Some(Sessions)
    else if name == "documents" then Some(Documents)
    else if name == "audio" then Some(Audio)
    else if name == "conversations" then Some(Conversations)
    else if name == "journals" then Some(Journals)
    else None
  }

  datatype TrendPoint = TrendPoint(date: Day, count: nat)

  /** How many rows fall on day `d`. */
  function Occurrences(dates: seq<Day>, d: Day): (n: nat)
    ensures n <= |dates|
    ensures n == 0 <==> d !in dates
  {
    if dates == [] then 0
    else Occurrences(dates[..|dates| - 1], d) + (if dates[|dates| - 1] == d then 1 else 0)
  }

  /** The `GROUP BY date` query over the rows dated on or after `start`, as a dictionary. */
  function CountsByDate(dates: seq<Day>, start: Day): map<Day, nat> {
    map d | d in dates && d >= start :: Occurrences(dates, d)
  }

  /**
   * `get_metrics_trend`: `datesOf` gives the date column of each metric's
   * table. An unknown metric gives the empty list; otherwise one point per day
   * from `endDate - (days - 1)` to `endDate`, ascending, with that day's row
   * count, 0 for a day without rows.
   */
  method GetMetricsTrend(metric: string, days: int, endDate: Day, datesOf: Metric -> seq<Day>)
    returns (trend: seq<TrendPoint>)
    ensures ParseMetric(metric).None? ==> trend == []
    ensures ParseMetric(metric).Some? ==>
              |trend| == (if days > 0 then days else 0) &&
              forall i :: 0 <= i < |trend| ==>
                trend[i] == TrendPoint(endDate - (days - 1) + i, Occurrences(datesOf(ParseMetric(metric).value), endDate - (days - 1) + i))
  {
    var start := endDate - (days - 1);
    var model := ParseMetric(metric);
    if model.None? {
      return [];
    }
    var dates := datesOf(model.value);
    var countsByDate := CountsByDate(dates, start);
    trend := [];
    var current := start;
    while current <= endDate
      invariant current == start + |trend|
      invariant |trend| == 0 || current <= endDate + 1
      invariant forall i :: 0 <= i < |trend| ==> trend[i] == TrendPoint(start + i, Occurrences(dates, start + i))
      decreases endDate - current
    {
      var count := if current in countsByDate then countsByDate[current] else 0;
      assert count == Occurrences(dates, current);
      trend := trend + [TrendPoint(current, count)];
      current := current + 1;
    }
  }

  /* ---------------- `get_orphaned_s3_files` ---------------- */

  datatype S3Object = S3Object(key: string, size: int, lastModified: Timestamp)

  datatype FileType = DocumentFile | ThumbnailFile | AudioFile

  datatype OrphanedFile = OrphanedFile(key: string, fileType: FileType, size: int, lastModified: Timestamp)

  datatype ByType = ByType(document: nat, thumbnail: nat, audio: nat)

  datatype OrphanReport = OrphanReport(totalCount: nat, totalSize: int, byType: ByType, files: seq<OrphanedFile>)

  /** The keys a column holds, leaving out NULL and (as `if d.s3_key` does) the empty string. */
  function TruthyKeys(column: seq<Option<string>>): set<string> {
    set k | k in column && k.Some? && k.value != [] :: k.value
  }

  /** The keys a column holds, leaving out only NULL (`isnot(None)`). */
  function NonNullKeys(column: seq<Option<string>>): set<string> {
    set k | k in column && k.Some? :: k.value
  }

  /** `doc_keys | thumb_keys | audio_keys`: every key the database refers to. */
  function ReferencedKeys(documentKeys: seq<Option<string>>, thumbnailKeys: seq<Option<string>>,
                          audioKeys: seq<Option<string>>): set<string> {
    TruthyKeys(documentKeys) + NonNullKeys(thumbnailKeys) + TruthyKeys(audioKeys)
  }

  function AsOrphan(f: S3Object, t: FileType): OrphanedFile {
    OrphanedFile(f.key, t, f.size, f.lastModified)
  }

  /** What one listed file adds to the report: itself when the database does not refer to it. */
  function OrphanOf(f: S3Object, t: FileType, referenced: set<string>): seq<OrphanedFile> {
    if f.key in referenced then [] else [AsOrphan(f, t)]
  }

  /** The listed files the database does not refer to, in listing order. */
  function Orphans(listing: seq<S3Object>, t: FileType, referenced: set<string>): seq<OrphanedFile> {
    if listing == [] then []
    else Orphans(listing[..|listing| - 1], t, referenced) + OrphanOf(listing[|listing| - 1], t, referenced)
  }

  function TotalSize(files: seq<OrphanedFile>): int {
    if files == [] then 0 else TotalSize(files[..|files| - 1]) + files[|files| - 1].size
  }

  lemma {:induction false} TotalSizeAppend(a: seq<OrphanedFile>, b: seq<OrphanedFile>)
    ensures TotalSize(a + b) == TotalSize(a) + TotalSize(b)
  {
    if b == [] {
      assert a + b == a;
    } else {
      assert (a + b)[..|a + b| - 1] == a + b[..|b| - 1];
      TotalSizeAppend(a, b[..|b| - 1]);
    }
  }

  /** A report with the three listings' orphans, in the order the service scans them. */
  function OrphanReportOf(documents: seq<S3Object>, thumbnails: seq<S3Object>, audio: seq<S3Object>,
                          referenced: set<string>): OrphanReport {
    var d := Orphans(documents, DocumentFile, referenced);
    var t := Orphans(thumbnails, ThumbnailFile, referenced);
    var a := Orphans(audio, AudioFile, referenced);
    OrphanReport(|d + t + a|, TotalSize(d + t + a), ByType(|d|, |t|, |a|), d + t + a)
  }

  function Bump(counts: ByType, t: FileType): ByType {
    match t
    case DocumentFile => counts.(document := counts.document + 1)
    case ThumbnailFile => counts.(thumbnail := counts.thumbnail + 1)
    case AudioFile => counts.(audio := counts.audio + 1)
  }

  function BumpBy(counts: ByType, t: FileType, n: nat): ByType {
    match t
    case DocumentFile => counts.(document := counts.document + n)
    case ThumbnailFile => counts.(thumbnail := counts.thumbnail + n)
    case AudioFile => counts.(audio := counts.audio + n)
  }

  lemma OrphansSnoc(listing: seq<S3Object>, t: FileType, referenced: set<string>, i: nat)
    requires i < |listing|
    ensures Orphans(listing[..i + 1], t, referenced) == Orphans(listing[..i], t, referenced) + OrphanOf(listing[i], t, referenced)
  {
    assert listing[..i + 1][..i] == listing[..i];
  }

  lemma BumpByTwice(counts: ByType, t: FileType, m: nat, n: nat)
    ensures BumpBy(BumpBy(counts, t, m), t, n) == BumpBy(counts, t, m + n)
  {
  }

  /** One of the three `for file in self.list_s3_files(prefix)` loops. */
  method ScanListing(listing: seq<S3Object>, t: FileType, referenced: set<string>,
                     orphaned: seq<OrphanedFile>, totalSize: int, byType: ByType)
    returns (orphaned': seq<OrphanedFile>, totalSize': int, byType': ByType)
    ensures orphaned' == orphaned + Orphans(listing, t, referenced)
    ensures totalSize' == totalSize + TotalSize(Orphans(listing, t, referenced))
    ensures byType' == BumpBy(byType, t, |Orphans(listing, t, referenced)|)
  {
    orphaned', totalSize', byType' := orphaned, totalSize, byType;
    var i := 0;
    while i < |listing|
      invariant 0 <= i <= |listing|
      invariant orphaned' == orphaned + Orphans(listing[..i], t, referenced)
      invariant totalSize' == totalSize + TotalSize(Orphans(listing[..i], t, referenced))
      invariant byType' == BumpBy(byType, t, |Orphans(listing[..i], t, referenced)|)
    {
      ghost var found, added := Orphans(listing[..i], t, referenced), OrphanOf(listing[i], t, referenced);
      OrphansSnoc(listing, t, referenced, i);
      AppendAssoc(orphaned, found, added);
      TotalSizeAppend(found, added);
      BumpByTwice(byType, t, |found|, |added|);
      orphaned', totalSize', byType' := ScanFile(listing[i], t, referenced, orphaned', totalSize', byType');
      i := i + 1;
    }
    assert listing[..i] == listing;
  }

  /** The body of that loop: an unreferenced file is reported, counted and its size added. */
  method ScanFile(file: S3Object, t: FileType, referenced: set<string>,
                  orphaned: seq<OrphanedFile>, totalSize: int, byType: ByType)
    returns (orphaned': seq<OrphanedFile>, totalSize': int, byType': ByType)
    ensures orphaned' == orphaned + OrphanOf(file, t, referenced)
    ensures totalSize' == totalSize + TotalSize(OrphanOf(file, t, referenced))
    ensures byType' == BumpBy(byType, t, |OrphanOf(file, t, referenced)|)
  {
    orphaned', totalSize', byType' := orphaned, totalSize, byType;
    if file.key !in referenced {
      orphaned' := orphaned' + [OrphanedFile(file.key, t, file.size, file.lastModified)];
      totalSize' := totalSize' + file.size;
      byType' := Bump(byType', t);
      assert TotalSize([AsOrphan(file, t)]) == TotalSize([]) + file.size;
    }
  }

  /** `get_orphaned_s3_files`, given the three key columns and the three listings. */
  method GetOrphanedS3Files(documentKeys: seq<Option<string>>, thumbnailKeys: seq<Option<string>>,
                            audioKeys: seq<Option<string>>,
                            documents: seq<S3Object>, thumbnails: seq<S3Object>, audio: seq<S3Object>)
    returns (report: OrphanReport)
    ensures report == OrphanReportOf(documents, thumbnails, audio, ReferencedKeys(documentKeys, thumbnailKeys, audioKeys))
  {
    var referenced := ReferencedKeys(documentKeys, thumbnailKeys, audioKeys);
    ghost var d := Orphans(documents, DocumentFile, referenced);
    ghost var t := Orphans(thumbnails, ThumbnailFile, referenced);
    ghost var a := Orphans(audio, AudioFile, referenced);
    var orphaned, totalSize, byType := [], 0, ByType(0, 0, 0);
    orphaned, totalSize, byType := ScanListing(documents, DocumentFile, referenced, orphaned, totalSize, byType);
    assert orphaned == d && totalSize == TotalSize(d) && byType == ByType(|d|, 0, 0);
    orphaned, totalSize, byType := ScanListing(thumbnails, ThumbnailFile, referenced, orphaned, totalSize, byType);
    assert orphaned == d + t && byType == ByType(|d|, |t|, 0);
    TotalSizeAppend(d, t);
    orphaned, totalSize, byType := ScanListing(audio, AudioFile, referenced, orphaned, totalSize, byType);
    assert orphaned == d + t + a && byType == ByType(|d|, |t|, |a|);
    TotalSizeAppend(d + t, a);
    report := OrphanReport(|orphaned|, totalSize, byType, orphaned);
  }

  /** A listed file is reported exactly when the database does not refer to its key. */
  lemma {:induction false} OrphansExactly(listing: seq<S3Object>, t: FileType, referenced: set<string>)
    ensures forall o :: o in Orphans(listing, t, referenced) ==> o.key !in referenced && o.fileType == t
    ensures forall f :: f in listing ==> (AsOrphan(f, t) in Orphans(listing, t, referenced) <==> f.key !in referenced)
  {
    if listing != [] {
      var init := listing[..|listing| - 1];
      OrphansExactly(init, t, referenced);
      assert listing == init + [listing[|listing| - 1]];
    }
  }

  /**
   * The report's count is the number of orphans and the sum of the three
   * per-type counts; its size is the sum of theirs; every reported file is
   * unreferenced, and every unreferenced listed file is reported.
   */
  lemma OrphanReportConsistent(documents: seq<S3Object>, thumbnails: seq<S3Object>, audio: seq<S3Object>,
                               referenced: set<string>)
    ensures var r := OrphanReportOf(documents, thumbnails, audio, referenced);
            r.totalCount == |r.files| == r.byType.document + r.byType.thumbnail + r.byType.audio &&
            r.totalSize == TotalSize(r.files) &&
            (forall o :: o in r.files ==> o.key !in referenced) &&
            (forall f :: f in documents && f.key !in referenced ==> AsOrphan(f, DocumentFile) in r.files) &&
            (forall f :: f in thumbnails && f.key !in referenced ==> AsOrphan(f, ThumbnailFile) in r.files) &&
            (forall f :: f in audio && f.key !in referenced ==> AsOrphan(f, AudioFile) in r.files)
  {
    OrphansExactly(documents, DocumentFile, referenced);
    OrphansExactly(thumbnails, ThumbnailFile, referenced);
    OrphansExactly(audio, AudioFile, referenced);
  }

  /* ---------------- `delete_s3_files` ---------------- */

  /** What `s3_service.delete_file` did: returned `True`, returned `False`, or raised. */
  datatype DeleteOutcome = Removed | NotRemoved | Raised

  /** The keys the service passes to `delete_file`: those the database does not refer to, in order. */
  function Unreferenced(keys: seq<string>, referenced: set<string>): seq<string> {
    if keys == [] then []
    else Unreferenced(keys[..|keys| - 1], referenced)
         + (if keys[|keys| - 1] in referenced then [] else [keys[|keys| - 1]])
  }

  /** A key is deleted when it is unreferenced and the delete succeeds. */
  predicate DeletedKey(key: string, referenced: set<string>, deleteFile: string -> DeleteOutcome) {
    key !in referenced && deleteFile(key).Removed?
  }

  /** The keys reported as failed, in input order: blocked ones and ones whose delete failed or raised. */
  function FailedKeys(keys: seq<string>, referenced: set<string>, deleteFile: string -> DeleteOutcome): seq<string> {
    if keys == [] then []
    else FailedKeys(keys[..|keys| - 1], referenced, deleteFile)
         + (if DeletedKey(keys[|keys| - 1], referenced, deleteFile) then [] else [keys[|keys| - 1]])
  }

  /**
   * `delete_s3_files`; `attempted` records the keys handed to `delete_file`,
   * which answers as `deleteFile` says.
   */
  method DeleteS3Files(keys: seq<string>, referenced: set<string>, deleteFile: string -> DeleteOutcome)
    returns (deleted: nat, failed: nat, failedKeys: seq<string>, ghost attempted: seq<string>)
    ensures attempted == Unreferenced(keys, referenced)
    ensures failedKeys == FailedKeys(keys, referenced, deleteFile)
    ensures failed == |failedKeys| && deleted + failed == |keys|
  {
    deleted, failed, failedKeys, attempted := 0, 0, [], [];
    var i := 0;
    while i < |keys|
      invariant 0 <= i <= |keys|
      invariant attempted == Unreferenced(keys[..i], referenced)
      invariant failedKeys == FailedKeys(keys[..i], referenced, deleteFile)
      invariant failed == |failedKeys| && deleted + failed == i
    {
      assert keys[..i + 1][..i] == keys[..i];
      var key := keys[i];
      if key in referenced {
        failed := failed + 1;
        failedKeys := failedKeys + [key];
      } else {
        attempted := attempted + [key];
        var outcome := deleteFile(key);
        if outcome.Removed? {
          deleted := deleted + 1;
        } else {
          failed := failed + 1;
          failedKeys := failedKeys + [key];
        }
      }
      i := i + 1;
    }
    assert keys[..i] == keys;
  }

  /** No key the database refers to ever reaches `delete_file`; every one of them is reported failed. */
  lemma {:induction false} ReferencedNeverDeleted(keys: seq<string>, referenced: set<string>, deleteFile: string -> DeleteOutcome)
    ensures forall k :: k in Unreferenced(keys, referenced) <==> k in keys && k !in referenced
    ensures forall k :: k in keys && k in referenced ==> k in FailedKeys(keys, referenced, deleteFile)
    ensures forall k :: k in FailedKeys(keys, referenced, deleteFile) ==> k in keys
  {
    if keys != [] {
      var init := keys[..|keys| - 1];
      ReferencedNeverDeleted(init, referenced, deleteFile);
      assert keys == init + [keys[|keys| - 1]];
    }
  }

  /* ---------------- `check_system_health` ---------------- */

  datatype Status = Healthy | Degraded | Unhealthy

  /** A database or S3 probe: it answered, or it raised with this message. */
  datatype Probe = Reachable | Unreachable(error: string)

  /** The OpenAI probe: an HTTP status, or the message of what it raised. */
  datatype OpenAIProbe = Answered(statusCode: int) | NoAnswer(error: string)

  datatype ServiceHealth = ServiceHealth(name: string, status: Status, message: Option<string>)

  function ProbeHealth(name: string, p: Probe): ServiceHealth {
    if p.Reachable? then ServiceHealth(name, Healthy, None) else ServiceHealth(name, Unhealthy, Some(p.error))
  }

  function OpenAIHealth(p: OpenAIProbe): ServiceHealth {
    match p
    case Answered(code) =>
      if code == 200 then ServiceHealth("openai", Healthy, None)
      else ServiceHealth("openai", Degraded, Some("HTTP " + IntToString(code)))
    case NoAnswer(error) => ServiceHealth("openai", Unhealthy, Some(error))
  }

  function Severity(s: Status): nat {
    match s
    case Healthy => 0
    case Degraded => 1
    case Unhealthy => 2
  }

  function Worse(a: Status, b: Status): Status {
    if Severity(a) >= Severity(b) then a else b
  }

  /** An OpenAI outage only degrades the platform. */
  function Capped(s: Status): Status {
    if s.Unhealthy? then Degraded else s
  }

  /** The overall status: the worst of the three, the OpenAI one counting at most as degraded. */
  function OverallStatus(database: Probe, s3: Probe, openai: OpenAIProbe): Status {
    Worse(Worse(ProbeHealth("database", database).status, ProbeHealth("s3", s3).status), Capped(OpenAIHealth(openai).status))
  }

  /** `check_system_health`, without the latencies. */
  method CheckSystemHealth(database: Probe, s3: Probe, openai: OpenAIProbe)
    returns (status: Status, services: seq<ServiceHealth>)
    ensures services == [ProbeHealth("database", database), ProbeHealth("s3", s3), OpenAIHealth(openai)]
    ensures status == OverallStatus(database, s3, openai)
  {
    services := [];
    status := Healthy;
    if database.Reachable? {
      services := services + [ServiceHealth("database", Healthy, None)];
    } else {
      services := services + [ServiceHealth("database", Unhealthy, Some(database.error))];
      status := Unhealthy;
    }
    if s3.Reachable? {
      services := services + [ServiceHealth("s3", Healthy, None)];
    } else {
      services := services + [ServiceHealth("s3", Unhealthy, Some(s3.error))];
      status := Unhealthy;
    }
    match openai {
      case Answered(code) =>
        if code == 200 {
          services := services + [ServiceHealth("openai", Healthy, None)];
        } else {
          services := services + [ServiceHealth("openai", Degraded, Some("HTTP " + IntToString(code)))];
          if status.Healthy? {
            status := Degraded;
          }
        }
      case NoAnswer(error) =>
        services := services + [ServiceHealth("openai", Unhealthy, Some(error))];
        if status.Healthy? {
          status := Degraded;
        }
    }
  }

  /**
   * The platform is unhealthy exactly when the database or S3 is down,
   * healthy exactly when all three answer normally, and degraded otherwise:
   * an OpenAI problem never makes it unhealthy.
   */
  lemma HealthRules(database: Probe, s3: Probe, openai: OpenAIProbe)
    ensures OverallStatus(database, s3, openai).Unhealthy? <==> database.Unreachable? || s3.Unreachable?
    ensures OverallStatus(database, s3, openai).Healthy? <==>
              database.Reachable? && s3.Reachable? && openai == Answered(200)
    ensures OverallStatus(database, s3, openai).Degraded? <==>
              database.Reachable? && s3.Reachable? && openai != Answered(200)
  {
  }

  /* ---------------- `get_inactive_accounts` ---------------- */

  /**
   * A user with what the per-user queries return: the number of sessions it
   * owns or collaborates on, and the latest timestamp of each kind of
   * activity across those sessions (`None` for `max` over no rows).
   */
  datatype Account = Account(
    userId: string, email: string, name: Option<string>, createdAt: Timestamp, sessionCount: nat,
    latestConversation: Option<Timestamp>, latestDocument: Option<Timestamp>,
    latestAudio: Option<Timestamp>, latestSessionActivity: Option<Timestamp>)

  datatype InactiveAccount = InactiveAccount(
    userId: string, email: string, name: Option<string>, lastActivity: Option<Timestamp>,
    daysInactive: int, sessionCount: nat, createdAt: Timestamp)

  /** `max` of the timestamps that are present, or `None` when none is. */
  function MaxPresent(ts: seq<Option<Timestamp>>): (r: Option<Timestamp>)
    ensures r.None? <==> forall i :: 0 <= i < |ts| ==> ts[i].None?
    ensures r.Some? ==> (exists i :: 0 <= i < |ts| && ts[i] == r) &&
                        forall i :: 0 <= i < |ts| && ts[i].Some? ==> ts[i].value <= r.value
  {
    if ts == [] then None
    else
      var rest := MaxPresent(ts[..|ts| - 1]);
      var last := ts[|ts| - 1];
      if last.None? then rest
      else if rest.Some? && rest.value >= last.value then rest
      else last
  }

  /** The latest activity: `None` for a user without sessions. */
  function LastActivity(a: Account): Option<Timestamp> {
    if a.sessionCount == 0 then None
    else MaxPresent([a.latestConversation, a.latestDocument, a.latestAudio, a.latestSessionActivity])
  }

  /** Whole days since the latest activity, or since the account was created when there is none. */
  function DaysInactive(a: Account, now: Timestamp): int {
    DaysBetween(now, LastActivity(a).GetOr(a.createdAt))
  }

  function ReportRow(a: Account, now: Timestamp): InactiveAccount {
    InactiveAccount(a.userId, a.email, a.name, LastActivity(a), DaysInactive(a, now), a.sessionCount, a.createdAt)
  }

  /** The report rows of the users inactive for at least `days` days, in user order. */
  function InactiveRows(accounts: seq<Account>, now: Timestamp, days: int): seq<InactiveAccount> {
    if accounts == [] then []
    else
      var a := accounts[|accounts| - 1];
      InactiveRows(accounts[..|accounts| - 1], now, days) + (if DaysInactive(a, now) >= days then [ReportRow(a, now)] else [])
  }

  function ByDaysInactive(r: InactiveAccount): Key {
    (r.daysInactive, 0)
  }

  /** `get_inactive_accounts`: the rows collected user by user, then sorted, most inactive first. */
  method GetInactiveAccounts(accounts: seq<Account>, now: Timestamp, days: int) returns (result: seq<InactiveAccount>)
    ensures result == SortDesc(InactiveRows(accounts, now, days), ByDaysInactive)
  {
    var rows := [];
    var i := 0;
    while i < |accounts|
      invariant 0 <= i <= |accounts|
      invariant rows == InactiveRows(accounts[..i], now, days)
    {
      assert accounts[..i + 1][..i] == accounts[..i];
      var user := accounts[i];
      var lastActivity := None;
      if user.sessionCount > 0 {
        var activityDates := [user.latestConversation, user.latestDocument, user.latestAudio, user.latestSessionActivity];
        lastActivity := MaxPresent(activityDates);
      }
      var daysInactive := if lastActivity.Some? then DaysBetween(now, lastActivity.value) else DaysBetween(now, user.createdAt);
      if daysInactive >= days {
        rows := rows + [InactiveAccount(user.userId, user.email, user.name, lastActivity, daysInactive, user.sessionCount, user.createdAt)];
      }
      i := i + 1;
    }
    assert accounts[..i] == accounts;
    result := SortDesc(rows, ByDaysInactive);
  }

  lemma {:induction false} InactiveRowsExactly(accounts: seq<Account>, now: Timestamp, days: int)
    ensures forall r :: r in InactiveRows(accounts, now, days) <==>
              exists a :: a in accounts && DaysInactive(a, now) >= days && r == ReportRow(a, now)
  {
    if accounts != [] {
      var init := accounts[..|accounts| - 1];
      InactiveRowsExactly(init, now, days);
      assert accounts == init + [accounts[|accounts| - 1]];
    }
  }

  /**
   * The report holds a row for exactly the users inactive for at least
   * `days` days, once per such user, sorted by days inactive, most first.
   */
  lemma InactiveReport(accounts: seq<Account>, now: Timestamp, days: int)
    ensures var result := SortDesc(InactiveRows(accounts, now, days), ByDaysInactive);
            (forall r :: r in result <==> exists a :: a in accounts && DaysInactive(a, now) >= days && r == ReportRow(a, now)) &&
            (forall r :: r in result ==> r.daysInactive >= days) &&
            multiset(result) == multiset(InactiveRows(accounts, now, days)) &&
            forall i, j :: 0 <= i < j < |result| ==> result[i].daysInactive >= result[j].daysInactive
  {
    var rows := InactiveRows(accounts, now, days);
    InactiveRowsExactly(accounts, now, days);
    SortDescCorrect(rows, ByDaysInactive);
    SortDescElements(rows, ByDaysInactive);
  }

  /** The last activity is the latest of the recorded ones, and the creation date stands in only when there is none. */
  lemma LastActivityLatest(a: Account, now: Timestamp)
    requires a.sessionCount > 0
    ensures var ts := [a.latestConversation, a.latestDocument, a.latestAudio, a.latestSessionActivity];
            (LastActivity(a).None? <==> forall i :: 0 <= i < 4 ==> ts[i].None?) &&
            (forall i :: 0 <= i < 4 && ts[i].Some? ==> ts[i].value <= LastActivity(a).value) &&
            (LastActivity(a).None? ==> DaysInactive(a, now) == DaysBetween(now, a.createdAt))
  {
  }
}
