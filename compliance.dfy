/**
 * Compliance reporting: each employer keeps an append-only log of payment
 * records numbered 1, 2, 3, ...; a report walks an employer's log from the
 * newest record backwards, keeping the records inside a date range (and of
 * one type, if asked), up to a limit, and stops at the first record older
 * than the range.
 */
module ComplianceReporting {
  import opened Ledger

  /** The most records a report may ask for. */
  const MAX_LIMIT: nat := 100

  datatype ReportType = Payroll | Tax | Regulatory

  datatype ComplianceRecord = ComplianceRecord(
    id: nat, employer: Address, employee: Address, token: Address, amount: int,
    timestamp: nat, reportType: ReportType, metadata: seq<bv8>)

  datatype ComplianceReport = ComplianceReport(
    employer: Address, startDate: nat, endDate: nat, totalAmount: int, recordCount: nat,
    records: seq<ComplianceRecord>)

  datatype Error = NotInitialized | AlreadyInitialized | InvalidDateRange | QueryLimitExceeded

  type Log = map<(Address, nat), ComplianceRecord>

  /** The record passes the optional type filter. */
  predicate TypeMatches(rec: ComplianceRecord, filter: Option<ReportType>)
  {
    filter.None? || rec.reportType == filter.value
  }

  predicate InRange(rec: ComplianceRecord, startDate: nat, endDate: nat)
  {
    startDate <= rec.timestamp <= endDate
  }

  function TotalAmount(recs: seq<ComplianceRecord>): int
  {
    if recs == [] then 0 else TotalAmount(recs[..|recs| - 1]) + recs[|recs| - 1].amount
  }

  /**
   * The backward walk of generate_report from record `current` down to 1,
   * with `found` the records kept so far: it stops once `limit` records are
   * kept, skips ids with no record, keeps in-range records that pass the
   * filter, and stops at the first record older than the range.
   */
  function Scan(log: Log, employer: Address, current: nat, startDate: nat, endDate: nat,
                filter: Option<ReportType>, limit: nat, found: seq<ComplianceRecord>): seq<ComplianceRecord>
    decreases current
  {
    if current == 0 || |found| >= limit then found
    else if (employer, current) !in log then Scan(log, employer, current - 1, startDate, endDate, filter, limit, found)
    else
      var rec := log[(employer, current)];
      if InRange(rec, startDate, endDate) then
        if TypeMatches(rec, filter) then Scan(log, employer, current - 1, startDate, endDate, filter, limit, found + [rec])
        else Scan(log, employer, current - 1, startDate, endDate, filter, limit, found)
      else if rec.timestamp < startDate then found
      else Scan(log, employer, current - 1, startDate, endDate, filter, limit, found)
  }

  /** The scan only appends to what it has found, and never past the limit. */
  lemma {:induction false} ScanExtends(log: Log, employer: Address, current: nat, startDate: nat, endDate: nat,
                                       filter: Option<ReportType>, limit: nat, found: seq<ComplianceRecord>)
    ensures var r := Scan(log, employer, current, startDate, endDate, filter, limit, found);
            && found <= r
            && (|found| <= limit ==> |r| <= limit)
    decreases current
  {
    if current == 0 || |found| >= limit {
    } else if (employer, current) !in log {
      ScanExtends(log, employer, current - 1, startDate, endDate, filter, limit, found);
    } else {
      var rec := log[(employer, current)];
      if InRange(rec, startDate, endDate) && TypeMatches(rec, filter) {
        ScanExtends(log, employer, current - 1, startDate, endDate, filter, limit, found + [rec]);
      } else if !(rec.timestamp < startDate) {
        ScanExtends(log, employer, current - 1, startDate, endDate, filter, limit, found);
      }
    }
  }

  /** The record is one of the employer's, logged under an id from 1 to `bound`. */
  ghost predicate Logged(log: Log, employer: Address, bound: nat, rec: ComplianceRecord)
  {
    exists id: nat :: 1 <= id <= bound && (employer, id) in log && log[(employer, id)] == rec
  }

  /** From index `from` on, `recs` holds only the employer's records up to id `bound` that are in range and pass the filter. */
  ghost predicate SoundFrom(log: Log, employer: Address, bound: nat, startDate: nat, endDate: nat,
                            filter: Option<ReportType>, recs: seq<ComplianceRecord>, from: nat)
  {
    forall k :: from <= k < |recs| ==>
      InRange(recs[k], startDate, endDate) && TypeMatches(recs[k], filter) && Logged(log, employer, bound, recs[k])
  }

  lemma SoundWiden(log: Log, employer: Address, lower: nat, upper: nat, startDate: nat, endDate: nat,
                   filter: Option<ReportType>, recs: seq<ComplianceRecord>, from: nat)
    requires lower <= upper
    requires SoundFrom(log, employer, lower, startDate, endDate, filter, recs, from)
    ensures SoundFrom(log, employer, upper, startDate, endDate, filter, recs, from)
  {
    forall k | from <= k < |recs|
      ensures Logged(log, employer, upper, recs[k])
    {
      assert Logged(log, employer, lower, recs[k]);
      var id: nat :| 1 <= id <= lower && (employer, id) in log && log[(employer, id)] == recs[k];
    }
  }

  /**
   * Every record the scan adds is one of the employer's records with an id
   * at most `current`, is inside the date range and passes the filter.
   */
  lemma {:induction false} ScanSound(log: Log, employer: Address, current: nat, startDate: nat, endDate: nat,
                                     filter: Option<ReportType>, limit: nat, found: seq<ComplianceRecord>)
    ensures SoundFrom(log, employer, current, startDate, endDate, filter,
                      Scan(log, employer, current, startDate, endDate, filter, limit, found), |found|)
    decreases current
  {
    if current == 0 || |found| >= limit {
    } else if (employer, current) !in log {
      ScanSound(log, employer, current - 1, startDate, endDate, filter, limit, found);
      SoundWiden(log, employer, current - 1, current, startDate, endDate, filter,
                 Scan(log, employer, current - 1, startDate, endDate, filter, limit, found), |found|);
    } else {
      var rec := log[(employer, current)];
      var r := Scan(log, employer, current, startDate, endDate, filter, limit, found);
      if InRange(rec, startDate, endDate) && TypeMatches(rec, filter) {
        var found' := found + [rec];
        ScanSound(log, employer, current - 1, startDate, endDate, filter, limit, found');
        ScanExtends(log, employer, current - 1, startDate, endDate, filter, limit, found');
        SoundWiden(log, employer, current - 1, current, startDate, endDate, filter, r, |found'|);
        assert r[|found|] == rec;
        assert Logged(log, employer, current, rec);
      } else if !(rec.timestamp < startDate) {
        ScanSound(log, employer, current - 1, startDate, endDate, filter, limit, found);
        SoundWiden(log, employer, current - 1, current, startDate, endDate, filter, r, |found|);
      }
    }
  }

  /** Record ids, newest first: each id lies below the one before it. */
  predicate Descending(recs: seq<ComplianceRecord>)
  {
    forall i, j :: 0 <= i < j < |recs| ==> recs[i].id > recs[j].id
  }

  /** Each record sits under its own id. */
  ghost predicate IdsMatch(log: Log, employer: Address)
  {
    forall id: nat :: (employer, id) in log ==> log[(employer, id)].id == id
  }

  /**
   * When records sit under their own ids, the scan returns them newest first,
   * given that the ids already found descend and all lie above `current`.
   */
  lemma {:induction false} ScanDescending(log: Log, employer: Address, current: nat, startDate: nat, endDate: nat,
                                          filter: Option<ReportType>, limit: nat, found: seq<ComplianceRecord>)
    requires IdsMatch(log, employer)
    requires Descending(found) && forall k :: 0 <= k < |found| ==> found[k].id > current
    ensures Descending(Scan(log, employer, current, startDate, endDate, filter, limit, found))
    decreases current
  {
    if current == 0 || |found| >= limit {
    } else if (employer, current) !in log {
      ScanDescending(log, employer, current - 1, startDate, endDate, filter, limit, found);
    } else {
      var rec := log[(employer, current)];
      if InRange(rec, startDate, endDate) && TypeMatches(rec, filter) {
        ScanDescending(log, employer, current - 1, startDate, endDate, filter, limit, found + [rec]);
      } else if !(rec.timestamp < startDate) {
        ScanDescending(log, employer, current - 1, startDate, endDate, filter, limit, found);
      }
    }
  }

  /** The employer's records are logged with non-decreasing timestamps up to id `current`. */
  ghost predicate Chronological(log: Log, employer: Address, current: nat)
  {
    forall i: nat, j: nat :: 1 <= i <= j <= current && (employer, i) in log && (employer, j) in log ==>
      log[(employer, i)].timestamp <= log[(employer, j)].timestamp
  }

  /** Every record of the employer up to id `bound` that is in range and passes the filter is in `recs`. */
  ghost predicate Covers(log: Log, employer: Address, bound: nat, startDate: nat, endDate: nat,
                         filter: Option<ReportType>, recs: seq<ComplianceRecord>)
  {
    forall id: nat :: 1 <= id <= bound && (employer, id) in log
      && InRange(log[(employer, id)], startDate, endDate) && TypeMatches(log[(employer, id)], filter)
      ==> log[(employer, id)] in recs
  }

  /**
   * When timestamps never decrease with the id, stopping at the first record
   * older than the range loses nothing: unless the limit was reached, every
   * in-range record up to `current` that passes the filter is reported.
   */
  lemma {:induction false} ScanComplete(log: Log, employer: Address, current: nat, startDate: nat, endDate: nat,
                                        filter: Option<ReportType>, limit: nat, found: seq<ComplianceRecord>)
    requires Chronological(log, employer, current)
    ensures |Scan(log, employer, current, startDate, endDate, filter, limit, found)| < limit ==>
              Covers(log, employer, current, startDate, endDate, filter,
                     Scan(log, employer, current, startDate, endDate, filter, limit, found))
    decreases current
  {
    var r := Scan(log, employer, current, startDate, endDate, filter, limit, found);
    if current == 0 || |found| >= limit {
    } else if (employer, current) !in log {
      ScanComplete(log, employer, current - 1, startDate, endDate, filter, limit, found);
    } else {
      var rec := log[(employer, current)];
      if InRange(rec, startDate, endDate) && TypeMatches(rec, filter) {
        var found' := found + [rec];
        ScanComplete(log, employer, current - 1, startDate, endDate, filter, limit, found');
        ScanExtends(log, employer, current - 1, startDate, endDate, filter, limit, found');
        assert r[|found|] == rec;
      } else if rec.timestamp < startDate {
        forall id: nat | 1 <= id <= current && (employer, id) in log
          ensures !InRange(log[(employer, id)], startDate, endDate)
        {
        }
      } else {
        ScanComplete(log, employer, current - 1, startDate, endDate, filter, limit, found);
      }
    }
  }

  /** A report holds at most `limit` records, newest first, each of the employer's, in range and of the requested type. */
  lemma ReportShape(log: Log, employer: Address, count: nat, startDate: nat, endDate: nat,
                    filter: Option<ReportType>, limit: nat)
    requires IdsMatch(log, employer)
    ensures |Scan(log, employer, count, startDate, endDate, filter, limit, [])| <= limit
    ensures Descending(Scan(log, employer, count, startDate, endDate, filter, limit, []))
    ensures SoundFrom(log, employer, count, startDate, endDate, filter,
                      Scan(log, employer, count, startDate, endDate, filter, limit, []), 0)
  {
    ScanExtends(log, employer, count, startDate, endDate, filter, limit, []);
    ScanSound(log, employer, count, startDate, endDate, filter, limit, []);
    ScanDescending(log, employer, count, startDate, endDate, filter, limit, []);
  }

  class ComplianceLog {
    var admin: Option<Address>
    var recordCount: map<Address, nat>
    var records: Log

    /** The stored count of an employer, 0 when nothing was logged. */
    function Count(employer: Address): nat
      reads this
    {
      if employer in recordCount then recordCount[employer] else 0
    }

    /** Every employer's records sit under ids 1 to its count, each under its own id and employer. */
    ghost predicate Valid()
      reads this
    {
      && (admin.None? ==> recordCount == map[] && records == map[])
      && (forall e: Address, id: nat :: (e, id) in records ==>
            1 <= id <= Count(e) && records[(e, id)].id == id && records[(e, id)].employer == e)
      && (forall e: Address, id: nat :: 1 <= id <= Count(e) ==> (e, id) in records)
    }

    constructor ()
      ensures Valid() && admin.None?
    {
      admin := None;
      recordCount := map[];
      records := map[];
    }

    /** Records the admin; there is no check on who calls, and a second call fails. */
    method Initialize(newAdmin: Address) returns (r: Result<(), Error>)
      requires Valid()
      modifies this`admin
      ensures Valid()
      ensures old(admin).Some? ==> r == Err(AlreadyInitialized) && unchanged(this)
      ensures old(admin).None? ==> r.Ok? && admin == Some(newAdmin)
    {
      if admin.Some? {
        return Err(AlreadyInitialized);
      }
      admin := Some(newAdmin);
      return Ok(());
    }

    /** Appends a record to the employer's log under the next id and returns that id. */
    method LogRecord(employer: Address, employee: Address, token: Address, amount: int,
                     reportType: ReportType, metadata: seq<bv8>, now: nat) returns (r: Result<nat, Error>)
      requires Valid()
      modifies this`recordCount, this`records
      ensures Valid()
      ensures admin.None? <==> r.Err?
      ensures r.Err? ==> r.error == NotInitialized && unchanged(this)
      ensures r.Ok? ==>
                && r.value == old(Count(employer)) + 1
                && (employer, r.value) !in old(records)
                && recordCount == old(recordCount)[employer := r.value]
                && records == old(records)[(employer, r.value) :=
                     ComplianceRecord(r.value, employer, employee, token, amount, now, reportType, metadata)]
    {
      if admin.None? {
        return Err(NotInitialized);
      }
      var nextId := Count(employer) + 1;
      var rec := ComplianceRecord(nextId, employer, employee, token, amount, now, reportType, metadata);
      records := records[(employer, nextId) := rec];
      recordCount := recordCount[employer := nextId];
      return Ok(nextId);
    }

    /** The number of records the employer has logged. */
    method RecordCount(employer: Address) returns (n: nat)
      requires Valid()
      ensures n == Count(employer)
      ensures forall id: nat :: (employer, id) in records <==> 1 <= id <= n
    {
      n := if employer in recordCount then recordCount[employer] else 0;
    }

    /**
     * Walks the employer's log from the newest record backwards and reports
     * what Scan keeps, their total amount and their number; the date range
     * and the limit are checked first, in that order.
     */
    method GenerateReport(employer: Address, startDate: nat, endDate: nat, filter: Option<ReportType>, limit: nat)
      returns (r: Result<ComplianceReport, Error>)
      requires Valid()
      ensures admin.None? ==> r == Err(NotInitialized)
      ensures admin.Some? && startDate > endDate ==> r == Err(InvalidDateRange)
      ensures admin.Some? && startDate <= endDate && limit > MAX_LIMIT ==> r == Err(QueryLimitExceeded)
      ensures r.Ok? <==> admin.Some? && startDate <= endDate && limit <= MAX_LIMIT
      ensures r.Ok? ==>
                && r.value.records == Scan(records, employer, Count(employer), startDate, endDate, filter, limit, [])
                && r.value.totalAmount == TotalAmount(r.value.records)
                && r.value.recordCount == |r.value.records|
                && r.value.employer == employer && r.value.startDate == startDate && r.value.endDate == endDate
      ensures r.Ok? ==>
                && r.value.recordCount <= limit
                && Descending(r.value.records)
                && SoundFrom(records, employer, Count(employer), startDate, endDate, filter, r.value.records, 0)
    {
      if admin.None? {
        return Err(NotInitialized);
      }
      if startDate > endDate {
        return Err(InvalidDateRange);
      }
      if limit > MAX_LIMIT {
        return Err(QueryLimitExceeded);
      }
      var totalRecords := if employer in recordCount then recordCount[employer] else 0;
      var matching: seq<ComplianceRecord> := [];
      var total := 0;
      var processed := 0;
      var current := totalRecords;
      ghost var spec := Scan(records, employer, totalRecords, startDate, endDate, filter, limit, []);
      while current > 0 && processed < limit
        invariant processed == |matching|
        invariant total == TotalAmount(matching)
        invariant Scan(records, employer, current, startDate, endDate, filter, limit, matching) == spec
      {
        if (employer, current) in records {
          var rec := records[(employer, current)];
          if rec.timestamp >= startDate && rec.timestamp <= endDate {
            var typeMatches := match filter case Some(t) => rec.reportType == t case None => true;
            if typeMatches {
              assert (matching + [rec])[..|matching|] == matching;
              total := total + rec.amount;
              matching := matching + [rec];
              processed := processed + 1;
            }
          } else if rec.timestamp < startDate {
            break;
          }
        }
        current := current - 1;
      }
      ReportShape(records, employer, totalRecords, startDate, endDate, filter, limit);
      return Ok(ComplianceReport(employer, startDate, endDate, total, |matching|, matching));
    }
  }
}
