/**
 * The two endpoints of the service and the process-wide dataset slot they
 * share. `upload` validates the filename and then replaces the slot with the
 * parsed table; `get_summary` only reads the slot, filters it by `user_id`
 * and reduces the matching amounts to min, max and mean.
 */
module App {
  import opened Wrappers
  import opened DecimalText
  import opened Transactions

  // ---------------------------------------------------------------------------
  // Upload: filename validation and the replace-on-success transition

  const CsvSuffix := ".csv"
  const NotCsvDetail := "Please upload a CSV file."
  const UploadedPrefix := "Successfully uploaded "

  /** Python's `s.endswith(suffix)`: literal and case-sensitive. */
  predicate EndsWith(s: string, suffix: string) {
    |suffix| <= |s| && s[|s| - |suffix|..] == suffix
  }

  /** The guard of `upload`: a filename is present, non-empty and ends with ".csv". */
  predicate IsCsvFilename(filename: Option<string>) {
    filename.Some? && filename.value != "" && EndsWith(filename.value, CsvSuffix)
  }

  /**
   * The guard accepts exactly the names that are some stem followed by ".csv";
   * the non-empty test adds nothing beyond rejecting a missing name.
   */
  lemma IsCsvFilenameIff(filename: Option<string>)
    ensures IsCsvFilename(filename) <==>
      filename.Some? && exists stem :: filename.value == stem + CsvSuffix
  {
    if IsCsvFilename(filename) {
      var name := filename.value;
      var stem := name[..|name| - |CsvSuffix|];
      assert name == stem + CsvSuffix;
    }
    if filename.Some? && exists stem :: filename.value == stem + CsvSuffix {
      var stem :| filename.value == stem + CsvSuffix;
      var name := filename.value;
      assert name[|name| - |CsvSuffix|..] == CsvSuffix;
    }
  }

  /** Sample names: only the exact lower-case suffix passes. */
  lemma FilenameExamples()
    ensures IsCsvFilename(Some("data.csv"))
    ensures IsCsvFilename(Some(".csv"))
    ensures !IsCsvFilename(Some("data.CSV"))
    ensures !IsCsvFilename(Some("data.txt"))
    ensures !IsCsvFilename(Some("data.csv.bak"))
    ensures !IsCsvFilename(Some(""))
    ensures !IsCsvFilename(None)
  {
  }

  datatype UploadResponse =
    | Uploaded(message: string)
    | UploadRejected(status: nat, detail: string)

  /** What `upload` answers for a filename: 400 for a rejected name, a confirmation naming the file otherwise. */
  function UploadReply(filename: Option<string>): (r: UploadResponse)
    ensures r.Uploaded? <==> IsCsvFilename(filename)
    ensures r.UploadRejected? ==> r.status == 400 && r.detail == NotCsvDetail
    ensures r.Uploaded? ==>
      |UploadedPrefix| <= |r.message| &&
      r.message[..|UploadedPrefix|] == UploadedPrefix &&
      r.message[|UploadedPrefix|..] == filename.value
  {
    if IsCsvFilename(filename) then Uploaded(UploadedPrefix + filename.value)
    else UploadRejected(400, NotCsvDetail)
  }

  /** The slot after an upload of `rows` under `filename`: replaced wholesale, or untouched on rejection. */
  function SlotAfterUpload(slot: Option<seq<Row>>, filename: Option<string>, rows: seq<Row>): Option<seq<Row>>
  {
    if IsCsvFilename(filename) then Some(rows) else slot
  }

  /** An accepted upload discards the previous dataset: the new slot holds exactly the uploaded rows. */
  lemma UploadReplaces(slot: Option<seq<Row>>, filename: Option<string>, rows: seq<Row>)
    requires IsCsvFilename(filename)
    ensures SlotAfterUpload(slot, filename, rows) == Some(rows)
  {
  }

  /** A rejected upload leaves the slot as it was. */
  lemma RejectedUploadKeepsSlot(slot: Option<seq<Row>>, filename: Option<string>, rows: seq<Row>)
    requires !IsCsvFilename(filename)
    ensures SlotAfterUpload(slot, filename, rows) == slot
  {
  }

  /** Uploading the same rows twice leaves the slot as uploading them once. */
  lemma UploadIdempotent(slot: Option<seq<Row>>, filename: Option<string>, rows: seq<Row>)
    ensures var once := SlotAfterUpload(slot, filename, rows);
      SlotAfterUpload(once, filename, rows) == once
  {
  }

  /** Nothing clears the slot: once a dataset is held, every upload leaves one held. */
  lemma SlotNeverCleared(slot: Option<seq<Row>>, filename: Option<string>, rows: seq<Row>)
    requires slot.Some?
    ensures SlotAfterUpload(slot, filename, rows).Some?
  {
  }

  // ---------------------------------------------------------------------------
  // Summary: no-data check, filter by user_id, empty check, min/max/mean

  const NoDataDetail := "No data uploaded yet. Please use /upload first."
  const NotFoundPrefix := "No records found in user_id "

  /** The 404 detail, `f"No records found in user_id {user_id}."`. */
  function NotFoundDetail(userId: int): string {
    NotFoundPrefix + IntToDecimal(userId) + "."
  }

  /** The id can be read back from the 404 detail, so the detail names the requested id. */
  lemma NotFoundDetailNamesId(userId: int)
    ensures var d := NotFoundDetail(userId);
      |NotFoundPrefix| < |d| && ParseInt(d[|NotFoundPrefix|..|d| - 1]) == Some(userId)
  {
    var d := NotFoundDetail(userId);
    assert d[|NotFoundPrefix|..|d| - 1] == IntToDecimal(userId);
    IntToDecimalRoundTrip(userId);
  }

  /** Distinct ids give distinct 404 details. */
  lemma NotFoundDetailInjective(a: int, b: int)
    requires NotFoundDetail(a) == NotFoundDetail(b)
    ensures a == b
  {
    NotFoundDetailNamesId(a);
    NotFoundDetailNamesId(b);
  }

  /**
   * The summary response. On success the mean is kept exact as the pair
   * (sum, count); `Mean` gives it as a real number.
   */
  datatype SummaryResponse =
    | Found(userId: int, min: int, max: int, sum: int, count: nat)
    | Failed(status: nat, detail: string)

  function Mean(r: SummaryResponse): real
    requires r.Found? && r.count > 0
  {
    r.sum as real / r.count as real
  }

  /** `get_summary(user_id)` against the slot's current value. */
  function Summarize(slot: Option<seq<Row>>, userId: int): (r: SummaryResponse)
    ensures r.Found? <==> slot.Some? && Matching(slot.value, userId) != []
    ensures r.Failed? ==> r.status == 400 || r.status == 404
    ensures r.Failed? && r.status == 400 <==> slot.None?
    ensures r.Failed? && r.status == 404 <==> slot.Some? && Matching(slot.value, userId) == []
    ensures r.Failed? ==> r.detail == if slot.None? then NoDataDetail else NotFoundDetail(userId)
    ensures r.Found? ==>
      && r.userId == userId
      && r.count == |Matching(slot.value, userId)| > 0
      && r.sum == SumAmount(Matching(slot.value, userId))
      && (forall x :: x in slot.value && x.userId == userId ==> r.min <= x.amount <= r.max)
      && (exists x :: x in slot.value && x.userId == userId && x.amount == r.min)
      && (exists x :: x in slot.value && x.userId == userId && x.amount == r.max)
      && r.count * r.min <= r.sum <= r.count * r.max
  {
    if slot.None? then Failed(400, NoDataDetail)
    else
      var userRows := Matching(slot.value, userId);
      if userRows == [] then Failed(404, NotFoundDetail(userId))
      else
        SumBetweenMinAndMax(userRows);
        Found(userId, MinAmount(userRows), MaxAmount(userRows), SumAmount(userRows), |userRows|)
  }

  /** On success the exact mean lies between the minimum and the maximum. */
  lemma MeanWithinMinMax(slot: Option<seq<Row>>, userId: int)
    requires slot.Some? && Matching(slot.value, userId) != []
    ensures Summarize(slot, userId).Found?
    ensures var r := Summarize(slot, userId);
      r.min as real <= Mean(r) <= r.max as real
  {
    var r := Summarize(slot, userId);
    QuotientBetween(r.min, r.sum, r.max, r.count);
  }

  /** From `n * lo <= s <= n * hi` with `n > 0`, the exact quotient `s / n` lies in `[lo, hi]`. */
  lemma QuotientBetween(lo: int, s: int, hi: int, n: nat)
    requires n > 0 && n * lo <= s <= n * hi
    ensures lo as real <= s as real / n as real <= hi as real
  {
  }

  /** Only the requested user's rows matter: the summary over the whole table equals the summary over that user's rows. */
  lemma SummaryDependsOnlyOnUserRows(rows: seq<Row>, userId: int)
    ensures Summarize(Some(rows), userId) == Summarize(Some(Matching(rows, userId)), userId)
  {
    MatchingIdempotent(rows, userId);
  }

  /** Inserting a row of another user anywhere in the table does not change a user's summary. */
  lemma OtherUserRowDoesNotChangeSummary(rows: seq<Row>, k: nat, other: Row, userId: int)
    requires k <= |rows| && other.userId != userId
    ensures Summarize(Some(rows[..k] + [other] + rows[k..]), userId) == Summarize(Some(rows), userId)
  {
    OtherUserRowIgnored(rows, k, other, userId);
  }

  /** After uploads of A and then B, every query reflects B alone. */
  lemma LastUploadWins(slot: Option<seq<Row>>, nameA: Option<string>, a: seq<Row>,
                       nameB: Option<string>, b: seq<Row>, userId: int)
    requires IsCsvFilename(nameB)
    ensures Summarize(SlotAfterUpload(SlotAfterUpload(slot, nameA, a), nameB, b), userId)
         == Summarize(Some(b), userId)
  {
  }

  /** The table of the repository's test: rows (1,10), (1,20), (2,30). */
  lemma SampleSummaries()
    ensures var rows := [Row(1, 10), Row(1, 20), Row(2, 30)];
      && Summarize(Some(rows), 1) == Found(1, 10, 20, 30, 2)
      && Mean(Summarize(Some(rows), 1)) == 15.0
      && Summarize(Some(rows), 2) == Found(2, 30, 30, 30, 1)
      && Summarize(Some(rows), 3) == Failed(404, NotFoundDetail(3))
      && Summarize(None, 1) == Failed(400, NoDataDetail)
  {
  }

  // ---------------------------------------------------------------------------
  // The process-wide dataset slot

  /**
   * The module-level `data` of the service, owned by one object. It starts
   * empty; only `Upload` assigns it.
   */
  class TransactionStore {
    var data: Option<seq<Row>>

    constructor ()
      ensures data == None
    {
      data := None;
    }

    /** `upload`: reject a non-CSV name with 400 before touching the slot, otherwise replace it. */
    method Upload(filename: Option<string>, rows: seq<Row>) returns (resp: UploadResponse)
      modifies this
      ensures data == SlotAfterUpload(old(data), filename, rows)
      ensures resp == UploadReply(filename)
    {
      if !IsCsvFilename(filename) {
        return UploadRejected(400, NotCsvDetail);
      }
      data := Some(rows);
      resp := Uploaded(UploadedPrefix + filename.value);
    }

    /** `get_summary`: reads the slot and changes nothing (the method modifies no state). */
    method GetSummary(userId: int) returns (r: SummaryResponse)
      ensures r == Summarize(data, userId)
    {
      r := Summarize(data, userId);
    }
  }

  /** A session in the style of the repository's tests, run against a fresh store. */
  method SampleSession() {
    var store := new TransactionStore();
    var early := store.GetSummary(1);
    assert early == Failed(400, NoDataDetail);
    var rejected := store.Upload(Some("data.txt"), [Row(9, 9)]);
    assert rejected.UploadRejected? && rejected.status == 400 by { FilenameExamples(); }
    assert store.data == None;
    var rows := [Row(1, 10), Row(1, 20), Row(2, 30)];
    var ok := store.Upload(Some("data.csv"), rows);
    assert ok.Uploaded? by { FilenameExamples(); }
    assert store.data == Some(rows);
    var summary := store.GetSummary(1);
    SampleSummaries();
    assert summary == Found(1, 10, 20, 30, 2);
  }
}
