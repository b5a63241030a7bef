# Insulin bolus calculator — verified model

A Dafny model of the console insulin calculator in `app.py`. The model covers three parts.

- **The bolus rule.** The carb ratio (ICR) the user picks is normalised to 8, 10 or 15. Anything else becomes 10.
  The correction term is `max(0, (glucose - 100) / 40)` and the meal term is `carbs / ICR`.
  Their sum is rounded to a whole pen unit with Python 3's `round`, which rounds a tie to the even integer.
- **The history file** `historico_glicemia.csv`. Each confirmed calculation appends one row
  (`Data, Glicemia, Carbos, ICR, Dose_Total`). Only the save that creates the file writes the header.
- **The report projections.** The PDF report shows the mean glucose of the last seven days (0 when
  that window is empty) and a table of the last 15 rows. The terminal view shows the last 10 rows.

Files:

- `options.dfy`: `Option`.
- `dosing.dfy`: the pure dose rule.
- `history.dfy`: the file as a class, `HistoryFile`, over a `seq` of lines. Its `Append` method is `salvar_dados`.
- `report.dfy`: the weekly window and mean, `tail`, and the export and terminal views.
- `session.dfy`: one "Novo Calculo", from the parsed answers to the optional save.

Numbers are exact Dafny `real`s. Timestamps are `real` seconds, so the current time `now` keeps the
fraction of a second that `datetime.now()` carries; `now` is passed in as a parameter.
A saved row keeps only the minute, because the date column is written with `"%d/%m/%Y %H:%M"` (app.py:15).
The weekly window compares those stored minutes with `now` minus seven days, fraction included (app.py:59-61).

Facts about `app.py` that the model keeps:

- `round` ties to the even integer (app.py:138), so 2.5 units become 2 and 3.5 become 4;
- there is one history file, and it is only ever appended to (app.py:22-25);
- an empty weekly window gives a mean of 0 (app.py:62);
- the header columns are `Data, Glicemia, Carbos, ICR, Dose_Total` (app.py:15-19).

## Model

| member | source | states |
|---|---|---|
| `Dosing.NormaliseRatio` | app.py:123-131 | A parsed choice of 8, 10 or 15 is kept. An unparsable answer, or any other integer, gives exactly 10. The result type makes the ratio one of 8, 10, 15, so never zero. |
| `Dosing.Correction` | app.py:134 | The correction is never negative. It is exactly 0 at or below the target of 100 mg/dL. Above target, correction × 40 equals glucose − 100. |
| `Dosing.Meal` | app.py:135 | Meal units × ratio equals the carbohydrates, and the units are non-negative for non-negative carbohydrates. |
| `Dosing.MealMonotone` | app.py:135 | More carbohydrates never give fewer meal units at a fixed ratio. |
| `Dosing.RoundHalfEven` | app.py:138 | Python 3 `round`: the result is within 1/2 of the input. At a distance of exactly 1/2 it is even. |
| `Dosing.RoundHalfEvenUnique` | app.py:138 | Any integer within 1/2 that is even on a tie is the rounded value, so the contract determines `round` completely. |
| `Dosing.RoundHalfEvenNearest` | app.py:138 | No integer is closer to the input than the rounded value. |
| `Dosing.RoundHalfEvenMonotone` | app.py:138 | Rounding preserves order: x ≤ y gives round(x) ≤ round(y). |
| `Dosing.Dose` | app.py:133-138 | The dose is within 1/2 unit of correction + meal, and when it is exactly 1/2 away it is even. With RoundHalfEvenUnique this pins the dose to Python's `round(correcao + refeicao)`. |
| `Dosing.DoseAtOrBelowTarget` | app.py:134-138 | At or below 100 mg/dL the dose is round(carbs / ratio). |
| `Dosing.DoseNonNegative` | app.py:134-138 | With carbohydrates ≥ 0 the dose is ≥ 0. |
| `Dosing.DoseMonotoneInGlucose` | app.py:134-138 | For fixed carbohydrates and ratio, a higher reading never gives a smaller dose. |
| `Dosing.DoseMonotoneInCarbs` | app.py:134-138 | For a fixed reading and ratio, more carbohydrates never give a smaller dose. |
| `Dosing.DoseExamples` | app.py:133-138 | Worked cases: (100, 0, 10) → 0; (140, 50, 10) → 6; (100, 25, 10) → 2 (tie 2.5 to even); (100, 35, 10) → 4 (tie 3.5 to even). |
| `History.TruncateToMinute` | app.py:15 | The stored instant is the save time with its seconds and their fraction dropped: at most the save time, less than a minute before it, a whole number of minutes. |
| `History.RowEntriesAppend` | app.py:25 | Adding a row line at the end of the file adds its entry at the end of what is read back. |
| `History.RowEntriesOfRows` | app.py:21-25 | Lines that are all rows read back as exactly their entries, one per line, in order. |
| `History.HistoryFile.Records` | app.py:55 | Reading the file gives one entry per line after the header, in file order, and nothing when there is no file. |
| `History.HistoryFile.constructor` | app.py:22 | Before any save there is no file and no records. |
| `History.HistoryFile.Append` | app.py:13-25 | The records gain exactly one entry at the end: the save minute, glucose, carbs, ratio and dose. A missing file is created as header plus that row. An existing file keeps every earlier line, header included, and only gains the row. |
| `Report.Window` | app.py:59-61 | An entry is in the window exactly when it is in the log and stamped at or after the cut-off, so an entry exactly seven days old is included. The window is no longer than the log. |
| `Report.WindowAppend` | app.py:61 | Filtering a log extended at the end extends the window at the end, or leaves it unchanged, so the window keeps stored order. |
| `Report.MinGlucose` | app.py:62 | The minimum is a lower bound of every glucose and is attained by one entry. |
| `Report.MaxGlucose` | app.py:62 | The maximum is an upper bound of every glucose and is attained by one entry. |
| `Report.SumGlucoseAtLeast` | app.py:62 | If every glucose is ≥ lo, the sum is ≥ count × lo. |
| `Report.SumGlucoseAtMost` | app.py:62 | If every glucose is ≤ hi, the sum is ≤ count × hi. |
| `Report.MeanAtLeast` | app.py:62 | A lower bound on every glucose of a non-empty run is a lower bound of its mean. |
| `Report.MeanAtMost` | app.py:62 | An upper bound on every glucose of a non-empty run is an upper bound of its mean. |
| `Report.SumGlucoseAppend` | app.py:62 | The Glicemia total of a log extended by one row is the old total plus that row's glucose. |
| `Report.Mean` | app.py:62 | The mean of a non-empty run is its Glicemia total divided by its count, and it lies between its minimum and maximum glucose. |
| `Report.WeeklyMean` | app.py:59-62 | The weekly mean is 0 when no entry lies in the seven-day window. Otherwise it is the `Mean` of the window: its glucose total over its count, between the window's minimum and maximum glucose. |
| `Report.Tail` | app.py:97 | `tail(n)` gives min(n, count) elements: the last ones, in stored order. |
| `Report.TailEndsWithLatest` | app.py:97 | After a row is added, every non-empty tail ends with that row. |
| `Report.TailOfTail` | app.py:159 | The last 10 rows of the last 15 rows are the last 10 rows. The terminal view is the tail of the report table. |
| `Report.ExportSummary` | app.py:49-97 | With no file there is no report. Otherwise the report carries the weekly mean of the records and exactly the last min(15, count) records, in stored order. |
| `Report.TerminalView` | app.py:157-160 | With no file there is nothing to show. Otherwise it shows exactly the last min(10, count) records, in stored order. |
| `Session.Calculate` | app.py:113-144 | A dose is computed exactly when both answers are numbers. An empty glucose answer, or an empty carbohydrate answer after a numeric glucose, ends silently. An unparsable answer takes the `ValueError` path. A computed outcome carries the answers, the normalised ratio and `Dose` of them. |
| `Session.CalculateInsulin` | app.py:111-144 | The history gains the computed entry, stamped with the current minute, only when a dose was computed and the user confirmed. `Confirms` models the `.lower() == 's'` test of app.py:141, which only "s" and "S" pass. On every other path the file is unchanged. |

## Left out

- The menu loop and every prompt and message (app.py:146-163, and the prints in `calcular_insulina`), including the "ICR invalido" warning. This is console I/O. The model takes the answers as parsed values.
- Parsing of the typed text by `float(...)` and `int(...)`. It is abstracted as `NumberInput` (empty, unparsable or a number) and `Option<int>` for the ratio.
- IEEE floating point: round-off, `inf` and `nan` from `float(...)` (and the `ValueError` that `round(nan)` raises into the handler at app.py:144), and pandas skipping NaN in `mean`. Arithmetic is exact over reals.
- The CSV text itself: the field formatting, `read_csv`, `to_datetime(..., dayfirst=True)` and the pandas DataFrame machinery. The file is a sequence of header and row lines, and a stored date reads back as the minute it was written.
- I/O failures and the handler in `exportar_pdf` that prints them (app.py:108-109). The `ValueError` handler of app.py:144 is modelled as the `NotANumber` outcome.
- Chart drawing with matplotlib (`gerar_grafico`, app.py:27-47) and the PDF layout with FPDF (app.py:64-107), including the temporary PNG. The model keeps only the figures the report shows: the weekly mean and the table rows.
- The clock: `datetime.now()` is the parameter `now`.
