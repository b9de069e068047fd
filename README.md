# Synthetic bank-transaction generator, modelled in Dafny

`BDD/generate_bank_data.py` builds a table of labelled bank transactions for
fraud-detection experiments. It works in two stages.

- **Base rows.** It builds `n_rows` rows (5000 in the script). Each row has a
  transaction identifier `TX` + the row index as five digits, and a customer
  identifier `CUST` + a number drawn from [100, 500). Each row also gets a date
  from a 180-day window, an amount (an exponential draw plus 5), a category, a
  city, a payment source, and `IsFraud = 0`.
- **Fraud injection.** Three passes then update the table in place:
  1. **High amount.** `int(n_rows * 0.02)` sampled rows are flagged. Their
     amount is multiplied by one factor drawn once from [5, 10).
  2. **Suspect customers.** The pass takes the first five distinct customer
     identifiers in row order. It samples some of their rows, flags them and
     sets their location to `Unknown/Tax Haven`.
  3. **Late night.** An `Hour` column is drawn in [0, 23]. Some rows with
     `Hour` in {2, 3, 4} are sampled and flagged.

The project has four modules:

- `Ids` (`ids.dfy`): the `05d` and `03d` formatting of the identifiers. It
  proves that the digits denote the index (so identifiers are distinct) and
  that transaction identifiers sort in row order.
- `FirstSeen` (`first_seen.dfy`): `Series.unique()` and `unique()[:k]`. Both
  are characterised as "distinct values in order of first appearance".
- `BankData` (`bank_data.dfy`): rows as values, the base table, and each pass
  as a function from the table before it to the table after it. It also holds
  the lemmas about single passes and about the whole run.
- `Generator` (`generator.dfy`): the script as it runs. A `Ledger` object
  holds the rows in an `array<Txn>`. Each pass is a method that rewrites the
  selected rows in place, with `forall` statements in the role of the
  vectorised `df.loc[...] = ...` writes. Each method is proved equal to its
  pass function.

Randomness is an input. The datatype `Draws` holds every random outcome of one
run: the per-row base draws, the three sampled index lists, the factor and the
hours. `WellFormed` states what the random number generator guarantees about
them. The sampled indices are distinct and in range. Pass 1 samples
`n_rows / 50` rows. Pass 2 samples only rows of suspect customers, and pass 3
samples only rows with `Hour` in {2, 3, 4}.

Details of the code the model keeps as written:

- Pass 1 samples `int(n_rows * 0.02)` rows, i.e. `n_rows / 50` rounded down, not
  rounded up.
- Pass 1 multiplies every selected amount by one shared factor. It does not draw
  a factor per row.
- The `Hour` column is drawn after pass 2 (line 46) and is the last column. It
  is not part of base synthesis.
- The script has no check of its own on the row count (`n_rows` is the
  constant 5000). Zero rows give an empty table, and a negative count fails
  inside numpy at line 16 (`np.random.choice` with a negative size). In the
  model the row count is the number of draws, which cannot be negative, and
  zero rows are accepted.

`IsFraud` is a `bool` (the file stores it as 0/1). An amount is kept as the
exact expression it denotes: `Drawn(base)` or `Scaled(amount, factor)`. Its
real value is given by `AmountValue`.

## Model

| member | source | states |
|---|---|---|
| `Ids.Decimal` | BDD/generate_bank_data.py:13-14 | the decimal form of a number is a non-empty digit string that denotes that number; it is one digit exactly when the number is below 10, and otherwise does not start with 0 |
| `Ids.ZeroPad` | BDD/generate_bank_data.py:13-14 | zero-padding to a width keeps the denoted number, never truncates, and gives exactly the width when the digits are shorter |
| `Ids.TransactionId` | BDD/generate_bank_data.py:13 | a transaction identifier is `TX` followed by digits that denote the row index; it is exactly 7 characters iff the index is below 100000 |
| `Ids.CustomerId` | BDD/generate_bank_data.py:14 | a customer identifier is `CUST` followed by digits that denote the customer number; it is 7 characters iff the number is below 1000, and from 100 up no zero padding is added |
| `Ids.CustomerIdShape` | BDD/generate_bank_data.py:14 | every drawn customer number in [100, 500) gives a 7-character identifier whose first digit is 1 to 4 |
| `Ids.DecimalLength` | BDD/generate_bank_data.py:13-14 | the decimal form of v fits in w digits exactly when v < 10^w |
| `Ids.ValueOrderIsLexOrder` | BDD/generate_bank_data.py:13 | for digit strings of equal length, the smaller number sorts first as a string |
| `Ids.TransactionIdsInRowOrder` | BDD/generate_bank_data.py:13 | for row indices i < j < 100000, the identifier of row i sorts before that of row j |
| `FirstSeen.Unique` | BDD/generate_bank_data.py:40 | `unique()` holds each value of the column exactly once, no other value, and in order of first appearance |
| `FirstSeen.FirstDistinct` | BDD/generate_bank_data.py:40 | `unique()[:k]` has no duplicates, holds only column values, and has exactly min(k, number of distinct values) entries |
| `FirstSeen.FirstDistinctInOrder` | BDD/generate_bank_data.py:40 | `unique()[:k]` is in order of first appearance; a value left out first appears after all kept ones, and is left out only when k values were kept |
| `BankData.CitiesAreNotTaxHaven` | BDD/generate_bank_data.py:19 | the sentinel `Unknown/Tax Haven` is not one of the seven cities |
| `BankData.BaseRows` | BDD/generate_bank_data.py:22-31 | the base table has one row per draw; no row is fraud; each location is a city and not the sentinel; category, source and date come from their lists; each amount is at least 5 |
| `BankData.BaseCustomerShape` | BDD/generate_bank_data.py:14 | every base customer identifier is `CUST` and three digits denoting a number in [100, 500) |
| `BankData.BaseIdsDistinct` | BDD/generate_bank_data.py:13 | the transaction identifiers of the base table are pairwise distinct |
| `BankData.BaseIdsInRowOrder` | BDD/generate_bank_data.py:13 | for tables of at most 100000 rows, transaction identifiers increase with the row index |
| `BankData.HighAmountPass` | BDD/generate_bank_data.py:35-37 | pass 1 keeps the row count and never clears a flag; a row is fraud afterwards iff it was before or was sampled; only sampled rows have their amount multiplied, all by the one factor; no other column changes |
| `BankData.HighAmountFlagsExactly` | BDD/generate_bank_data.py:35-36 | on a table without fraud, pass 1 leaves exactly floor(n / 50) fraud rows |
| `BankData.HighAmountScale` | BDD/generate_bank_data.py:37 | a positive amount picked by pass 1 ends up between 5 and 10 times its old value (10 excluded) |
| `BankData.HighAmountKeepsCustomers` | BDD/generate_bank_data.py:35-37 | pass 1 leaves the customer column unchanged |
| `BankData.Suspects` | BDD/generate_bank_data.py:40 | the suspect list is the first five distinct customer identifiers of the table: no duplicates, only customers of the table, and min(5, number of distinct customers) entries |
| `BankData.SuspectSelection` | BDD/generate_bank_data.py:41 | every row index pass 2 samples is a row of a suspect customer, so the sampled rows belong to at most five customers |
| `BankData.SuspectSelectionTransfers` | BDD/generate_bank_data.py:40-41 | on two tables with the same customer column, a selection of suspect-customer rows for one is one for the other |
| `BankData.SuspectPass` | BDD/generate_bank_data.py:40-43 | pass 2 keeps the row count and never clears a flag; a row is fraud afterwards iff it was before or was sampled; exactly the sampled rows get the sentinel location; no other column changes; every changed row belongs to one of the first five distinct customers |
| `BankData.SuspectPassKeepsCustomers` | BDD/generate_bank_data.py:41-43 | pass 2 leaves the customer column unchanged |
| `BankData.LateNightPass` | BDD/generate_bank_data.py:47-48 | pass 3 keeps the row count and never clears a flag; a row is fraud afterwards iff it was before or was sampled; no other field changes; every changed row has `Hour` in {2, 3, 4} |
| `BankData.AfterHighAmount` | BDD/generate_bank_data.py:35-37 | the table after pass 1 has the same number of rows and the same customer column as before |
| `BankData.AfterSuspects` | BDD/generate_bank_data.py:35-43 | the table after passes 1 and 2 has the same number of rows and the same customer column as before |
| `BankData.Injected` | BDD/generate_bank_data.py:35-48 | the table after the three passes has the same number of rows and the same customer column as before |
| `BankData.InjectedRows` | BDD/generate_bank_data.py:35-48 | after the three passes, a row is fraud iff it was fraud before or any pass sampled it; its location becomes the sentinel if pass 2 sampled it and stays as it was otherwise; its amount is scaled iff pass 1 sampled it; no other field changes |
| `BankData.Generated` | BDD/generate_bank_data.py:12-48 | the generated table has exactly one row per base draw |
| `BankData.GeneratedRows` | BDD/generate_bank_data.py:12-48 | in the generated table, a row is fraud iff one of the three passes sampled it; its location is the sentinel if pass 2 sampled it and its base city otherwise, so it is the sentinel iff pass 2 sampled it; only pass 1 changes amounts; identifier, customer, date, category and source are those of the base row |
| `BankData.TaxHavenRowsAreSuspects` | BDD/generate_bank_data.py:40-43 | every generated row with the sentinel location belongs to one of the first five distinct customers of the table |
| `BankData.FlagsRiseThroughPasses` | BDD/generate_bank_data.py:36-48 | across passes 1, 2 and 3 the row count never changes and no fraud flag goes from 1 back to 0 |
| `BankData.InjectedFraudAtLeastHighAmount` | BDD/generate_bank_data.py:35-48 | starting from a table without fraud, the three passes leave at least floor(n / 50) fraud rows |
| `BankData.GeneratedFraudAtLeastHighAmount` | BDD/generate_bank_data.py:12-48 | the generated table has at least floor(n / 50) fraud rows |
| `Generator.Ledger.constructor` | BDD/generate_bank_data.py:22-31 | the new table holds exactly the base rows in a fresh array and has no `Hour` column |
| `Generator.Ledger.InjectHighAmount` | BDD/generate_bank_data.py:35-37 | updating the rows in place leaves the table equal to pass 1 applied to the old table |
| `Generator.Ledger.InjectSuspects` | BDD/generate_bank_data.py:40-43 | updating the rows in place leaves the table equal to pass 2 applied to the old table |
| `Generator.Ledger.AddHourColumn` | BDD/generate_bank_data.py:46 | the `Hour` column becomes the drawn hours (each in [0, 23]), one per row, and the rows stay as they were |
| `Generator.Ledger.InjectLateNight` | BDD/generate_bank_data.py:47-48 | updating the rows in place leaves the table equal to pass 3 applied to the old table, with the `Hour` column as it was |
| `Generator.GenerateBankData` | BDD/generate_bank_data.py:12-48 | running construction, pass 1, pass 2, the `Hour` column and pass 3 in that order leaves the object's rows equal to `Generated` and its `Hour` column equal to the drawn hours |

## Left out

- Random number generation (`np.random.seed`, `randint`, `choice`, `exponential`, `uniform`, `sample`): every outcome is an input (`Draws`). Only the ranges and selection rules the generator guarantees are stated; distributions, weights and seed reproducibility are not.
- BankData.SuspectPass: the sample size of `sample(frac=0.3)` (0.3 times the eligible row count, rounded by pandas) is not constrained; the model only requires distinct eligible rows. The statement that the sentinel appears at all when suspects exist is therefore not modelled.
- BankData.LateNightPass: the same holds for the size of `sample(frac=0.1)`.
- BankData.HighAmountFlagsExactly: `int(n_rows * 0.02)` is taken as `n_rows / 50` rounded down. Floating-point rounding of the product is not modelled; for 5000 rows both give 100.
- Floating-point amounts: the exponential base, rounding to two decimals and the float product. An amount is an exact real expression.
- Dates: `pd.date_range` and calendar arithmetic. A date is a day offset in [0, 180) from 2024-01-01.
- File output (`os.makedirs`, `to_csv`, the column order of the CSV) and the final `print`.
- The dashboards, EDA scripts, model training and prediction scripts and the other data generators are not part of this model.
