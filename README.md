# Transaction summary service — Dafny model

A model of the transaction summary API (a small FastAPI service in
`app/main.py`). The service has two endpoints and one shared slot:

- `upload` accepts a file only when its name is present, non-empty and ends
  with the literal, case-sensitive suffix `.csv`. It parses the file into a
  table and replaces the process-wide `data` with it. A rejected name gets a
  400 before `data` is touched.
- `get_summary(user_id)` fails with 400 while `data` is still `None`. It
  filters the table to the rows of `user_id` and fails with 404 (naming the
  id) when none match. Otherwise it returns the id with the min, max and mean
  of `transaction_amount` over those rows. It never writes `data`.

Files:

- `wrappers.dfy` — `Option`, standing for Python's `None` or a value.
- `decimal.dfy` — `str(int)` as decimal text, and a parser proved to read it
  back. The 404 message embeds the id this way.
- `transactions.dfy` — a parsed row `(userId, amount)`, the boolean-mask
  filter `Matching`, and `MinAmount`, `MaxAmount`, `SumAmount` with their
  order, attainment and bound lemmas.
- `app.dfy` — the filename guard, the upload reply, the slot transition
  `SlotAfterUpload`, the summary `Summarize`, and the class
  `TransactionStore`. Its field `data` is the module-level global. `Upload`
  is a method that modifies it. `GetSummary` is a method that only reads it.

The mean is kept exact as the pair (sum, count) in the `Found` response.
`Mean` gives it as a real number.

## Model

| member | source | states |
|---|---|---|
| `Transactions.Matching` | app/main.py:62 | the filtered rows all carry the requested id; a row is kept exactly when it is in the table and has that id; never longer than the table |
| `Transactions.MinAmount` | app/main.py:71 | the minimum is at most every amount in a non-empty table and equals some row's amount |
| `Transactions.MaxAmount` | app/main.py:72 | the maximum is at least every amount in a non-empty table and equals some row's amount |
| `Transactions.SumBetweenMinAndMax` | app/main.py:71-73 | count × min ≤ sum of amounts ≤ count × max |
| `Transactions.OtherUserRowIgnored` | app/main.py:62 | inserting a row of a different user anywhere leaves the filtered rows unchanged |
| `Transactions.MatchingIdempotent` | app/main.py:62 | filtering the filtered rows again by the same id changes nothing |
| `Transactions.MatchingConcat` | app/main.py:62 | filtering a concatenation equals concatenating the filtered parts |
| `DecimalText.IntToDecimalRoundTrip` | app/main.py:66 | the decimal text of an integer, as an f-string writes it, parses back to that integer |
| `DecimalText.IntToDecimalInjective` | app/main.py:66 | distinct integers have distinct decimal texts |
| `App.IsCsvFilenameIff` | app/main.py:38 | a name passes the guard exactly when it is present and is some stem followed by ".csv" |
| `App.FilenameExamples` | app/main.py:38 | "data.csv" and ".csv" pass; "data.CSV", "data.txt" (the name the repository's test rejects), "data.csv.bak", "" and a missing name are rejected |
| `App.UploadReply` | app/main.py:37-47 | the upload succeeds exactly when the name passes the guard; a rejection is 400 "Please upload a CSV file."; a success reads "Successfully uploaded " followed by the filename |
| `App.UploadReplaces` | app/main.py:44 | after an accepted upload the slot holds exactly the uploaded rows, whatever it held before |
| `App.RejectedUploadKeepsSlot` | app/main.py:38-39 | a rejected upload leaves the slot as it was |
| `App.UploadIdempotent` | app/main.py:44 | uploading the same rows under the same name twice leaves the slot as one upload does |
| `App.SlotNeverCleared` | app/main.py:44 | once the slot holds a dataset, no upload empties it |
| `App.LastUploadWins` | app/main.py:44 | after uploads of A then an accepted B, every summary equals the summary over B alone |
| `App.NotFoundDetailNamesId` | app/main.py:66 | the requested id can be parsed back out of the 404 detail |
| `App.NotFoundDetailInjective` | app/main.py:66 | distinct ids give distinct 404 details |
| `App.Summarize` | app/main.py:58-74 | the summary succeeds exactly when a dataset is held and some row matches, and fails only with 400 or 404; 400 with the no-data detail exactly when nothing is uploaded; 404 with the detail naming the id exactly when no row matches; otherwise the id is the requested one, count is the number of matching rows (> 0), sum is their total, min ≤ every matching amount ≤ max, both attained by matching rows |
| `App.MeanWithinMinMax` | app/main.py:71-73 | when a dataset is held and some row matches, the summary succeeds and min ≤ sum / count ≤ max |
| `App.SummaryDependsOnlyOnUserRows` | app/main.py:62 | the summary over the whole table equals the summary over the requested user's rows only |
| `App.OtherUserRowDoesNotChangeSummary` | app/main.py:62 | inserting a row of another user anywhere in the table leaves the summary unchanged |
| `App.SampleSummaries` | app/main.py:58-73 | for rows (1,10),(1,20),(2,30): id 1 gives min 10, max 20, mean 15 (the repository's test case); id 2 gives 30, 30, 30; id 3 gives 404; no data gives 400 |
| `App.TransactionStore.constructor` | app/main.py:16 | the slot starts empty |
| `App.TransactionStore.Upload` | app/main.py:27-47 | the new slot is `SlotAfterUpload` of the old one and the reply is `UploadReply` of the name; the method changes nothing but the slot |
| `App.TransactionStore.GetSummary` | app/main.py:50-81 | returns `Summarize` of the current slot; it has no modifies clause, so the slot is unchanged |

## Left out

- CSV parsing (`pd.read_csv`, app/main.py:42): the parsed rows are an input of `Upload`. A parse failure raises before the assignment, so it would leave the slot unchanged and answer 500. This path is not modelled.
- A CSV that parses but has another schema: `upload` accepts it and replaces the slot. A missing `user_id` column makes every later summary a 500 (a KeyError at app/main.py:62). A missing or non-numeric `transaction_amount` column still gives the 404 for an id with no rows, and a 500 (a KeyError, ValueError or TypeError at app/main.py:71-73) for an id with rows. `Row` always has both integer columns, so none of this is modelled.
- Columns other than `user_id` and `transaction_amount`: the summary reads only these two.
- App.TransactionStore.GetSummary: min and max are `int(...)` of the column's min and max. Amounts are modelled as integers, so this truncation is the identity. Non-integral amounts and their truncation toward zero are not modelled.
- App.Mean: the mean is exact (sum / count as a real). The float conversion and `round(..., 2)` of app/main.py:73 are floating point and are not modelled.
- Missing values (NaN) in the amount column, and a `user_id` column that is not integer-typed, are pandas behaviour not modelled.
- The web framework: routing, HTTP transport of status codes, multipart `UploadFile` handling, and the `home` endpoint that returns a constant (app/main.py:19-24).
- Concurrent requests: calls are sequential. The source has no synchronisation on the global slot to model.
- The commented-out debug prints (app/main.py:77-78).
