# SpaceX launch dashboard: filter-and-aggregate pipeline

This project models the data logic of the SpaceX launch records dashboard
(`spacex_dash_app.py`) in Dafny and proves properties of it. The launch
table is an immutable sequence of `LaunchRecord(site, payload, cls, booster)`.
Each row holds a launch site, a payload mass in kg, a landing class (1 = landed)
and a booster version category. The model covers:

- **Dataset constants** (`dataset.dfy`, module `Dataset`):
  - `MinPayload` and `MaxPayload` are the column minimum and maximum. An empty
    table gives `None`, where pandas gives NaN.
  - `Sites` is the `Launch Site` column of `groupby(...).first()`. The group
    keys are sorted, so the list has no repeats and is in Python string order
    (code-point lexicographic, module `Strings`).
  - `LandingLabels` is the loop that builds the `label` column. It appends 1
    for every row, whichever branch the class takes.
- **Selection filter** (`selection.dfy`, module `Selection`):
  - `Where` applies one boolean mask: `Launch Site == site`, or
    `low < payload < high`. It keeps the rows the mask holds of, as a compact
    subsequence in table order. `df.where` turns the other rows into NaN rows
    that fail every later test. Dropping them gives the same figures.
  - `Select` is the row set the scatter callback plots. For `'ALL'` it is the
    range mask alone. For any other dropdown value it is the site mask, then
    the range mask.
- **Figures** (`charts.dfy`, module `Charts`, with `grouping.dfy`):
  - `PieChart` is `get_pie_chart`. With `'ALL'`, the pie's names are the sites
    and its values are `class`, over the whole table. Otherwise the names are
    `class` values and the values are `label`, over the chosen site's rows.
  - A pie merges rows with the same name and adds up their values. `GroupSum`
    models that merge; each name keeps the place of its first row.
  - `ScatterChart` is `get_scatter_chart`. It has one point
    `(payload, class, booster)` per selected row, in table order, plus the title.
- **Scenarios** (`scenarios.dfy`): lemmas that evaluate `PieChart`, `ScatterChart` and `Sites` on small concrete tables.

The dataset is passed to every operation as a value. Dash's module-level
frame is not modelled as a global.

Two behaviours of the code are easy to misread, and the model keeps both:

- The site list is sorted (`groupby` sorts its keys), not kept in order of
  first appearance.
- The pie callback's only input is the dropdown (line 74), so the per-site pie
  counts all of that site's rows whatever the payload range. The
  `SiteScenario` lemma shows this: two KSC rows at 3000 kg and 7000 kg give a
  scatter of one point over [2000, 6000] but two pie slices. `EmptyRangeScenario`
  shows that a range holding no CCAFS row empties the scatter but not the pie. The
  `SitePieCountsRowsOutsideRange` lemma states it in general.

## Model

| member | source | states |
|---|---|---|
| `Dataset.MaxPayload` | spacex_dash_app.py:11 | `None` exactly for an empty table; otherwise every payload is at most the result, and some row has exactly that payload |
| `Dataset.MinPayload` | spacex_dash_app.py:12 | `None` exactly for an empty table; otherwise every payload is at least the result, and some row has exactly that payload |
| `Dataset.PayloadWithinBounds` | spacex_dash_app.py:11-12 | every row's payload lies in `[min_payload, max_payload]` |
| `Dataset.Sites` | spacex_dash_app.py:13-14 | the site list is strictly sorted in Python string order, has no repeats, and holds exactly the sites that occur in the table |
| `Dataset.Insert` | spacex_dash_app.py:13 | adding a key to a strictly sorted key list keeps it strictly sorted, and the list then holds exactly the old keys and the new one |
| `Dataset.LandingLabels` | spacex_dash_app.py:16-22 | the `label` column has one entry per row, and every entry is 1 |
| `Selection.Where` | spacex_dash_app.py:94 | a row is kept if and only if it is in the table and the mask holds of it; the result is no longer than the table |
| `Selection.Select` | spacex_dash_app.py:93-107 | the rows `get_scatter_chart` plots: a row is selected if and only if it is in the table, is from the chosen site (any site for `'ALL'`) and has `low < payload < high`; the selection is no longer than the table |
| `Selection.WhereSubsequence` | spacex_dash_app.py:94 | masking keeps the surviving rows in table order |
| `Selection.SelectSingleton` | spacex_dash_app.py:96-107 | a one-row table shows its row if and only if the row is from the chosen site (any site for `'ALL'`) and `low < payload < high` |
| `Selection.SelectAppend` | spacex_dash_app.py:96-107 | the selection of a concatenation is the concatenation of the selections: matching rows appear in table order |
| `Selection.SelectMembers` | spacex_dash_app.py:96-107 | a row is shown if and only if it is in the table and matches the site and the strict range |
| `Selection.SelectExactly` | spacex_dash_app.py:96-107 | the selection is a subsequence of the table; each matching row appears as many times as in the table, and no other row appears |
| `Selection.SelectIdempotent` | spacex_dash_app.py:94-106 | filtering the shown rows again with the same selection returns them unchanged |
| `Selection.SelectExcludesBounds` | spacex_dash_app.py:97-103 | a row whose payload equals `low` or `high` is never shown |
| `Selection.InitialRangeExcludesExtremes` | spacex_dash_app.py:65 | with the slider at its initial `[min_payload, max_payload]`, a row of the chosen site is shown if and only if its payload is neither the minimum nor the maximum |
| `Selection.UnknownSiteSelectsNothing` | spacex_dash_app.py:94-104 | a dropdown value other than `'ALL'` that names no site in the table selects no rows, and nothing fails |
| `Selection.EmptyRangeSelectsNothing` | spacex_dash_app.py:97-103 | a range with `high <= low` selects no rows |
| `Grouping.GroupSum` | spacex_dash_app.py:83-85 | the pie slices have distinct names, exactly the names of the input rows; each name's sum and the overall total equal those of the input rows |
| `Grouping.GroupSumSlice` | spacex_dash_app.py:83-85 | each slice's value is the sum of the values of the input rows with its name |
| `Charts.PieChart` | spacex_dash_app.py:75-86 | `get_pie_chart`: the title is `Total Success Launches By Site` for `'ALL'` and `Total Success Launches for site <site>` otherwise; no two slices share a name; for `'ALL'` the slice values add up to the sum of `class` over the whole table |
| `Charts.SiteClassRowsFacts` | spacex_dash_app.py:78-79 | the pie input for `'ALL'` (names = `Launch Site`, values = `class`, whole table): a site's values add up to the sum of `class` over that site's rows; its names are exactly the occurring sites; its total is the sum of `class` |
| `Charts.ClassLabelRowsFacts` | spacex_dash_app.py:83-84 | the pie input for a site (names = `class`, values = `label`, the site's rows): each class's values add up to the number of the site's rows with that class; its names are exactly the classes that occur there; its total is the site's row count |
| `Charts.AllSitesPie` | spacex_dash_app.py:77-81 | for `'ALL'`: the title is `Total Success Launches By Site`; there is one slice per occurring site, with no site twice; each slice's value is the sum of `class` over all of that site's rows; the values add up to the sum of `class` over the table |
| `Charts.AllSitesPieOneSlicePerSite` | spacex_dash_app.py:78-79 | the `'ALL'` pie has exactly as many slices as the site list has entries |
| `Charts.ClassSumCountsSuccesses` | spacex_dash_app.py:78 | when every `class` is 0 or 1, the sum of `class` is the number of successful landings |
| `Charts.SitePie` | spacex_dash_app.py:82-85 | for a site: the title is `Total Success Launches for site <site>`; there is one slice per class value that occurs among the site's rows; each slice's value is the number of the site's rows with that class; the values add up to the site's row count |
| `Charts.SitePieCountsRowsOutsideRange` | spacex_dash_app.py:74-85 | a row of the site outside the payload range is not in the scatter, yet its class has a pie slice of value at least 1 |
| `Charts.ScatterChart` | spacex_dash_app.py:93-107 | `get_scatter_chart`: one point per selected row, and every point's payload lies strictly inside the range |
| `Charts.ScatterSingleton` | spacex_dash_app.py:98-106 | a one-row table gives the point `(payload, class, booster)` if and only if the row matches the selection |
| `Charts.ScatterAppend` | spacex_dash_app.py:98-106 | the points of a concatenated table are the points of its parts, in order |
| `Charts.ScatterPointsMatch` | spacex_dash_app.py:96-106 | a point is plotted if and only if some matching row carries its payload, class and booster category |
| `Charts.ScatterTitles` | spacex_dash_app.py:100-106 | the scatter title ends in `all sites` for `'ALL'` and in the site's name otherwise |
| `Charts.UnknownSiteEmptyCharts` | spacex_dash_app.py:76-106 | an unknown site gives an empty scatter and an empty pie |
| `Scenarios.AllSitesPieScenario` | spacex_dash_app.py:77-80 | two sites, four rows: the `'ALL'` pie is CCAFS 1, KSC 2 |
| `Scenarios.AllSitesScatterScenario` | spacex_dash_app.py:96-100 | range [0, 10000]: the rows at 0 kg and 10000 kg are not plotted |
| `Scenarios.SitesScenario` | spacex_dash_app.py:13-14 | a table whose first row is from KSC and second from CCAFS has the site list `["CCAFS", "KSC"]`: string order, not first appearance |
| `Scenarios.SiteScenario` | spacex_dash_app.py:82-107 | KSC over [2000, 6000]: only the 3000 kg row is selected and the scatter is the single point (3000, 1, FT), but the pie has a slice for class 1 and one for class 0, each of value 1 |
| `Scenarios.EmptyRangeScenario` | spacex_dash_app.py:74-107 | CCAFS over [9000, 9500]: the scatter is empty, but the pie, which ignores the range, has slices; no error |
| `Scenarios.UnknownSiteScenario` | spacex_dash_app.py:93-107 | the site `XYZ` gives an empty scatter and an empty pie, and no error |

## Left out

- CSV loading (`pd.read_csv`, line 10) is file I/O. The table is taken as an already-parsed sequence of records.
- The Dash app object, the layout, the dropdown, the range slider's configuration (min 0, max 10000, step 1000), callback registration and `app.run_server()` are UI and server glue (lines 24-69, 73-74, 90-92, 111). The dropdown options read `launch_sites_df.loc[0..3]`, so they assume at least four sites; that is not modelled.
- Plotly rendering is not modelled. The model keeps the data each figure is built from: the pie's merged slices and the scatter's points. Plotly's default draw order, which sorts pie slices by value, is a rendering step and is not modelled.
- Slices of value 0 are kept. An example is a site with no successful landing in the `'ALL'` pie; plotly keeps such a slice but draws no wedge for it.
- NaN is not modelled. `df.where` turns rows into NaN rows, and those rows fail every comparison and are dropped by the figure. The model uses a compact subsequence filter, which gives the same figures.
- Payloads are `real` values. Floating-point rounding and NaN payloads are not modelled; the code only compares payloads and never does arithmetic on them.
- A dropdown value of `None` (a cleared dropdown) is not modelled. The dropdown value is a string, and `str(entered_site)` is that string.
- `Charts.ClassSumCountsSuccesses` requires every `class` to be 0 or 1. That is the dataset's convention, not something the code checks.
