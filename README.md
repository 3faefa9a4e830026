# Outlier trimmer and CSV column reader, modelled in Dafny

The repository reads a comma-separated file column by column and trims
statistical outliers from a column. This project models its two working
parts:

- **`Trimmer`** (`trimmer.dfy`, with `statistics.dfy`) models
  `Trimmer.dataTrimmer` and its helpers.
  - An integer selector picks the outlier finder:
    - 1 is the IQR finder, which is a stub that finds nothing;
    - 2 finds the values strictly more than two population standard
      deviations from the mean;
    - any other selector is a fatal error.
  - `removeOutliers` then deletes every occurrence of every outlier value
    from the caller's list, in place, and returns that same list.
- **`Parser`** (`parser.dfy`) models `Parser.split` and the loop of
  `Parser.parse` that turns rows into columns.
  - `split` cuts a line at every comma, with no quoting.
  - The loop appends field `i` of each row to column `i`. It creates a
    column the first time a row reaches it.
- **`JavaList`** (`array_list.dfy`) is the part of `java.util.ArrayList`
  that these use: `add`, `contains` and `remove(Object)` on a list whose
  contents change in place.
- **`TrimmerExamples`** (`trimmer_examples.dfy`) holds worked columns,
  computed exactly.

## Representation choices

- Values are Dafny `real`s, so there is no rounding.
- There is no square root either. The model keeps the variance, and writes
  the outlier test `|x - avg| > 2 * sd` as `(x - avg)^2 > 4 * variance`.
  `Statistics.OutlierTestMatchesRoot` proves that the two agree for the
  non-negative `sd` whose square is the variance.
- `FindVariance` is `findStandardDeviation` without its final `Math.sqrt`.
- The error thrown for a bad selector becomes the `Err` case of a `Result`,
  carrying the source's message.
- The columns built by the parser hold the fields as text, because
  `Double.parseDouble` is not modelled.

## A value exactly on the boundary

Trimming `[10, 10, 10, 10, 1000]` with selector 2 removes nothing, although
1000 looks like the obvious outlier:

- The mean is 208 and the population standard deviation is 396.
- `|1000 - 208| = 792` is exactly `2 * 396`.
- The comparison in `src/Trimmer.java:43` is strict, so `1000` is kept.
- All of these numbers are exact in binary floating point too.

`TrimmerExamples.BoundaryValueKept` proves that nothing is removed.
`TrimmerExamples.SpikeRemoved` shows a column where an outlier is removed,
and that trimming the result again removes nothing more.

## Model

| member | source | states |
|---|---|---|
| Trimmer.DataTrimmer | src/Trimmer.java:8-20 | Outcome by selector:<br>• not 1 or 2: the fatal error with the source's message, and the list is untouched;<br>• 1 or 2: the result is the caller's own list object, now holding `Trimmed` of its old contents. |
| Trimmer.RemoveOutliers | src/Trimmer.java:22-29 | Returns the same list object. Its contents become the old contents with every element equal to some outlier deleted (`Without`). The inner loop ends because each `remove` shortens the list. |
| Trimmer.FindOutliersTwo | src/Trimmer.java:38-48 | The outliers are the column's values, in column order, whose squared distance from the mean exceeds four times the variance. There are none for an empty column. |
| Trimmer.FindOutliersOne | src/Trimmer.java:32-35 | The IQR finder reports no outliers, so removing what it reports leaves the column as it was. |
| Trimmer.FindAverage | src/Trimmer.java:50-56 | The running sum divided by the count is the mean `Sum(data) / |data|`. |
| Trimmer.FindVariance | src/Trimmer.java:58-65 | The accumulated squared deviations over the count, made non-negative, is the population variance (the square of the standard deviation returned). |
| Trimmer.OutliersByMembers | src/Trimmer.java:42-46 | A value is reported exactly when it occurs in the column and fails the two-standard-deviation test. |
| Trimmer.KeptByMembers | src/Trimmer.java:42-46 | A value is kept exactly when it occurs in the column and passes the test. |
| Trimmer.OutliersPartition | src/Trimmer.java:42-46 | Reported and kept values together are a permutation of the column. |
| Trimmer.CenterNotOutlier | src/Trimmer.java:43 | A value equal to the mean is never an outlier. |
| Trimmer.NoOutliersInConstant | src/Trimmer.java:42-46 | If every value equals one value that passes the test, nothing is reported. |
| Trimmer.WithoutMembers | src/Trimmer.java:23-26 | After removal, no element equals an outlier, and every element not equal to one remains. |
| Trimmer.WithoutMultiplicity | src/Trimmer.java:23-26 | A value that is no outlier keeps its multiplicity; an outlier value occurs zero times. |
| Trimmer.WithoutAppend | src/Trimmer.java:23-26 | Removal acts element by element, so survivors keep their relative order. |
| Trimmer.WithoutAbsent | src/Trimmer.java:23-26 | Removing values that do not occur changes nothing. |
| Trimmer.WithoutOneMore | src/Trimmer.java:23-26 | Handling one more outlier value in the `for` loop removes that value from what is already left. |
| Trimmer.WithoutRemoveFirst | src/Trimmer.java:24-25 | One `remove(x)` does not change what remains once every `x` is gone. |
| Trimmer.WithoutOutliersBy | src/Trimmer.java:22-29 | Removing the reported outliers from any part of the column leaves that part's kept values, in order. |
| Trimmer.SelectorOneKeepsData | src/Trimmer.java:11-18 | Selector 1 returns the column unchanged. |
| Trimmer.SelectorTwoKeepsInliers | src/Trimmer.java:13-18 | Selector 2 returns exactly the values within two standard deviations of the mean, in their original order. A value exactly on the boundary is kept. |
| Trimmer.EqualValuesNotTrimmed | src/Trimmer.java:50-65 | For a non-empty column of equal values, the variance is 0, nothing is an outlier and selector 2 returns the column whole. |
| Statistics.OutlierTestMatchesRoot | src/Trimmer.java:43 | For `sd >= 0` with `sd * sd == variance`, the squared test agrees with `|x - avg| > 2 * sd`. A distance of exactly `2 * sd` is not an outlier. |
| Statistics.SquaredDeviations | src/Trimmer.java:61-63 | The accumulated sum of squared deviations is never negative. |
| Statistics.Variance | src/Trimmer.java:64 | The variance is never negative, so the square root is defined. |
| Statistics.SumOfConstant | src/Trimmer.java:52-54 | The sum of `n` copies of `c` is `n * c`. |
| Statistics.MeanOfConstant | src/Trimmer.java:50-56 | The mean of a column of equal values is that value. |
| Statistics.SquaredDeviationsOfConstant | src/Trimmer.java:61-63 | Equal values have zero squared deviation from themselves. |
| Statistics.SquaredDeviationsPositive | src/Trimmer.java:61-63 | One value away from the mean makes the sum of squared deviations positive. |
| Statistics.VarianceZeroIffAllEqual | src/Trimmer.java:58-65 | The variance is 0 exactly when all values are equal. |
| JavaList.RemoveFirst | src/Trimmer.java:25 | `remove(x)` drops one occurrence of `x` (the multiset loses one `x`, and the length drops by one), or changes nothing if `x` is absent. |
| JavaList.ArrayList.constructor | src/Parser.java:21 | A new list is empty. |
| JavaList.ArrayList.Add | src/Parser.java:27 | `add` appends at the end. |
| JavaList.ArrayList.Contains | src/Trimmer.java:24 | `contains(x)` holds exactly when some element equals `x`. |
| JavaList.ArrayList.Remove | src/Trimmer.java:25 | Reports whether `x` was present, and drops its first occurrence. |
| Parser.IndexOf | src/Parser.java:45 | `indexOf` gives -1 or a position holding the character. |
| Parser.IndexOfFirst | src/Parser.java:45 | `indexOf` is -1 exactly when the character is absent. Otherwise no earlier position holds it. |
| Parser.IndexOfAt | src/Parser.java:50 | The first position holding the character is the one `indexOf` returns. |
| Parser.Split | src/Parser.java:42-56 | The loop produces exactly the comma-separated fields of the line. |
| Parser.FieldsCount | src/Parser.java:45-53 | A line with `n` commas splits into `n + 1` fields, so the result is never empty. |
| Parser.FieldsHaveNoComma | src/Parser.java:45-53 | No field contains a comma. |
| Parser.JoinFields | src/Parser.java:45-53 | Joining the fields with commas gives back the line. |
| Parser.FieldsOfJoin | src/Parser.java:45-53 | Splitting comma-free fields joined with commas gives back those fields. |
| Parser.FieldsAppend | src/Parser.java:46-51 | Splitting `s + "," + t` gives the fields of `s` followed by those of `t`. |
| Parser.FieldsEdgeCases | src/Parser.java:45-53 | Edge cases: the empty line is one empty field, a line without a comma is one field, and a trailing comma adds an empty last field. |
| Parser.MaxWidth | src/Parser.java:17-23 | The table width bounds every row's field count and is 0 for no rows. |
| Parser.MaxWidthAttained | src/Parser.java:17-23 | Some row is as wide as the table. |
| Parser.ColumnNonEmpty | src/Parser.java:17-28 | Every column up to the table width receives at least one field. |
| Parser.ColumnBeyondWidth | src/Parser.java:17-28 | No row has a field beyond the table width, so no field is lost. |
| Parser.ColumnOfRectangle | src/Parser.java:17-28 | When all rows have the same width, column `j` holds row `r`'s `j`-th field at position `r` (a transpose). |
| Parser.ColumnSnoc | src/Parser.java:17-28 | A new row adds its `j`-th field, if it has one, to the end of column `j`. |
| Parser.MaxWidthSnoc | src/Parser.java:20-23 | A new row widens the table only if it is wider. |
| Parser.ColumnsSnoc | src/Parser.java:17-28 | Adding rows one at a time, as the loop does, gives the columns of the whole table. |
| Parser.AppendRow | src/Parser.java:17-28 | For one row:<br>• each field `i` goes to the end of column `i`;<br>• new columns are created only past the last existing one, and are fresh and distinct;<br>• existing columns stay in place. |
| Parser.Assemble | src/Parser.java:15-29 | After all lines:<br>• there is one column per field of the widest row;<br>• column `j` holds, in row order, the `j`-th field of every row that has one;<br>• the columns are distinct, newly created lists. |
| TrimmerExamples.BoundaryValueKept | src/Trimmer.java:43 | For `[10,10,10,10,1000]`: the standard deviation is 396, `1000` lies exactly `2 * 396` from the mean, and selector 2 removes nothing. |
| TrimmerExamples.SpikeStatistics | src/Trimmer.java:50-65 | `[10,10,10,10,10,70]` has mean 20 and variance 500. |
| TrimmerExamples.SpikeRemoved | src/Trimmer.java:8-20 | Selector 2 removes the `70` from `[10,10,10,10,10,70]`, and trimming the result again removes nothing. |

## Left out

- `src/Main.java`: a console prompt loop that prints. It holds no logic of its own.
- File handling in `parse`:
  - opening the file and reading it line by line;
  - closing the reader and catching `IOException`.

  `Parser.Assemble` takes the lines as a sequence instead.
- `Double.parseDouble` on each field: the columns hold the fields as strings. In the source, a field that is not a number throws `NumberFormatException`. That includes the empty field of a blank line or of a trailing comma. `parse` catches only `IOException`, so it aborts at that field. `Parser.Assemble` keeps such fields as text and goes on.
- The call `Trimmer.dataTrimmer(column)` in `parse`, which runs after the columns are built. It passes one argument to a method that takes two, so it has no behaviour to model. `dataTrimmer` is modelled on its own, with an explicit selector.
- The outer list of columns in `parse` is a local sequence of column objects, not an `ArrayList` object, because nothing else refers to it. The list returned by `split` is a sequence for the same reason.
- IEEE-754 arithmetic:
  - the rounding of the sum, the division and `Math.sqrt`;
  - `Double.equals` semantics in `contains` and `remove` (NaN equal to NaN, 0.0 unequal to -0.0).

  The model uses exact reals and ordinary equality.
- Trimmer.FindVariance: returns the variance, not its square root. The outlier test is restated on squares, and `Statistics.OutlierTestMatchesRoot` proves the two tests agree.
- Trimmer.FindOutliersTwo: on an empty column the source computes a NaN mean and standard deviation. It then visits no values, so it finds no outliers. The model returns that empty result without computing the statistics.
- IQR, quartile and median computation: `findOutliersOne` is an empty stub, and the model keeps it one (`Trimmer.FindOutliersOne`).
