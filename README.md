# SpaceX launch records dashboard — a Dafny model

The dashboard reads a table of rocket launches and shows two linked charts.
A dropdown selects "All Sites" or one of four launch sites. A range slider
selects a payload interval. Two callbacks turn these values into chart
arguments:

- `get_pie_chart` gives a pie of successes by site, or one site's successes
  against failures;
- `get_scatter_plot` gives payload against outcome for the launches strictly
  inside the payload range, from every site or from the selected one.

The slider starts at the smallest and largest payload in the table.

The model has two modules.

- `Frames` (frames.dfy) holds the data-frame semantics the callbacks rely
  on. The loaded table has its default index 0..n-1. A comparison on a column
  gives a boolean Series. Boolean indexing `frame[mask]` keeps rows by index
  label and does not reorder them. Labels are modelled explicitly because
  the scatter callback applies a mask built over the whole table to a frame
  already cut down to one site, and the library lines the mask up by label.
  `Exactly(r, d, keep)` says that `r` holds, in table order, exactly the rows
  of table `d` whose record satisfies `keep`. `FilterRows` is an independent
  reference filter, and `ExactlyIsFilterRows` shows that `Exactly` fixes the
  frame uniquely as that filter.
- `Dashboard` (dashboard.dfy) holds the dropdown's option table (`Option`,
  `Token`, `Label`) and a parser from the raw dropdown value. It also holds
  the two callbacks (`PieChart`, `ScatterPlot`), the payload reductions
  (`MinPayload`, `MaxPayload`) and the lemmas about them. A chart is the
  record of arguments handed to the charting library (`PieSpec`,
  `ScatterSpec`).

The callbacks follow the source's if/elif chains on the raw token. Each one
hard-codes its site string and title. Their contracts are stated against the
option table instead (`PieFor`, `ScatterFor`). So the verified contracts
also show that the site each branch filters on is the label the dropdown
shows for that token. Any other value reaches `return fig` with `fig`
unassigned. That includes Python's `None`, modelled as `Unset`. The model
returns `Err(UnboundFig)` there. A slider value that is not a pair fails at
`low, high = slider_range`, before the token is looked at. The model returns
`Err(SliderUnpack)` there.

Two facts about the controls:

- Only the five tokens can be chosen in the dropdown, but no default
  `value` is declared, so the first call receives `None` and fails; see
  Findings.
- A range slider gives `low <= high`, but the callbacks do not rely on it:
  a reversed or empty range gives an empty scatter (`StrictBounds`).

Both callbacks are functions of their inputs, so calling one twice with the
same inputs gives the same chart.

## Model

| member | source | states |
|---|---|---|
| Frames.Load | Notebooks/spacex_dash_app.py:10 | the loaded frame has one row per record, row i carrying label i, labels ascending; a row is in it iff its label is in range and its record is the table's record at that label |
| Frames.Select | Notebooks/spacex_dash_app.py:105 | boolean indexing keeps a row iff the mask is true at its label, never adds rows, and keeps a frame in table order |
| Frames.SelectLoaded | Notebooks/spacex_dash_app.py:70 | indexing the loaded table by a column comparison (the Series `MaskOf`) gives exactly the qualifying rows, in table order |
| Frames.SelectFiltered | Notebooks/spacex_dash_app.py:105 | indexing an already filtered frame by a whole-table mask gives exactly the rows passing both filters, in table order |
| Frames.SelectTwice | Notebooks/spacex_dash_app.py:105 | indexing by one mask then another equals indexing once by their element-wise conjunction (`And`) |
| Frames.ExactlyIsFilterRows | Notebooks/spacex_dash_app.py:70 | a frame holding exactly the qualifying rows in table order is the reference filter of the table, so such a frame is unique |
| Dashboard.ParseToken | Notebooks/spacex_dash_app.py:26-32 | a raw value denotes an entry only if it is that entry's token; None and every other string denote none |
| Dashboard.TokenRoundTrip | Notebooks/spacex_dash_app.py:27-31 | each entry's token parses back to that entry |
| Dashboard.SiteRows | Notebooks/spacex_dash_app.py:70 | `table[table['Launch Site'] == name]` holds exactly the launches from `name`, in table order |
| Dashboard.PayloadMask | Notebooks/spacex_dash_app.py:98 | the mask, the `And` of the two comparison Series `MaskOf`, is true at i iff `low < payload < high`: both bounds strict |
| Dashboard.PieChart | Notebooks/spacex_dash_app.py:61-87 | it succeeds iff the value is one of the five tokens, else fails with the unassigned figure. "All Sites": the whole unfiltered table, `values='class'`, `names='Launch Site'`, the all-sites title. A site: exactly that site's rows in order, no `values`, `names='class'`, and a title naming the label shown for that token |
| Dashboard.SiteInRange | Notebooks/spacex_dash_app.py:105 | the whole-table payload mask applied to one site's rows gives exactly the launches at that site strictly inside the range, in table order, and equals indexing the whole table once by `site_mask & mask` |
| Dashboard.ScatterPlot | Notebooks/spacex_dash_app.py:95-119 | a non-pair slider value fails at unpacking; otherwise it succeeds iff the value is a known token, else fails with the unassigned figure. On success: `x='Payload Mass (kg)'`, `y='class'`, `color='Booster Version Category'`, `size='Payload Mass (kg)'`, over exactly the in-range rows ("All Sites") or the in-range rows of the label's site |
| Dashboard.MaxPayload | Notebooks/spacex_dash_app.py:11 | NaN iff the table is empty; otherwise at least every payload and equal to some payload |
| Dashboard.MinPayload | Notebooks/spacex_dash_app.py:12 | NaN iff the table is empty; otherwise at most every payload and equal to some payload |
| Dashboard.PieRowsInOrder | Notebooks/spacex_dash_app.py:69-86 | a site's pie rows are the reference filter of the table by that site: a subsequence in original order |
| Dashboard.AbsentSiteGivesEmptyPie | Notebooks/spacex_dash_app.py:69-86 | a site with no launch in the table gives a pie over no rows, not a failure |
| Dashboard.ScatterRowsInOrder | Notebooks/spacex_dash_app.py:100-118 | the scatter rows are the reference filter by the range, and also by the site unless "All Sites" is selected |
| Dashboard.StrictBounds | Notebooks/spacex_dash_app.py:98 | every plotted payload is strictly inside the range; a launch whose payload equals either bound is not plotted; `low >= high` plots nothing |
| Dashboard.AllSitesScatter | Notebooks/spacex_dash_app.py:100-102 | with "All Sites", launch i is plotted iff `low < payload < high`, whatever its site |
| Dashboard.SiteScatter | Notebooks/spacex_dash_app.py:104-118 | with a site selected, launch i is plotted iff it is from that site and `low < payload < high` |
| Dashboard.ScatterWithinPie | Notebooks/spacex_dash_app.py:104-106 | for any known token both charts are produced, and every scatter row is a row of the pie for the same token |
| Dashboard.DefaultSliderDropsExtremes | Notebooks/spacex_dash_app.py:51 | for a non-empty table the initial slider `[min, max]` bounds every payload and both bounds occur; the initial "All Sites" scatter plots launch i iff its payload is neither the minimum nor the maximum |
| Dashboard.InitialRenderFails | Notebooks/spacex_dash_app.py:25-33 | with the dropdown as declared (no value), the first pie and the first scatter fail with the unassigned figure |
| Dashboard.IntendedInitialRender | Notebooks/spacex_dash_app.py:22 | with "All Sites" as the initial value, the first pie covers the whole table and the first scatter the reference filter by the slider range |

## Left out

- Reading the table from the CSV file (line 10) is file I/O. The table is a parameter (`d`), and an unreadable file is not modelled.
- The layout is not modelled: heading, styles, placeholder, slider `min`/`max`/`step`/`marks`, the app object and `run_server` (lines 15-55, 124-125). It is UI and HTTP plumbing. The slider's own bounds [0, 10000] are not applied to the initial `[min, max]` value.
- The callback decorators and the reactive dispatch (lines 59-60, 92-94) belong to the UI framework. Each callback is modelled as a function of the control values and the table.
- The charting library is a foreign library: rendering, and how the pie counts or sums per slice. So the slice counts of a pie are not modelled. Only the arguments handed to it are.
- Payloads are `real`, and the table has no NaN payloads. They are only compared, so floating-point rounding plays no part. The NaN that `min`/`max` give for an empty table is `Stat.NaN`. What the slider and the mask would do with NaN bounds is not modelled.
- DefaultSliderDropsExtremes requires a non-empty table, because for an empty one the initial slider value would be two NaNs, which the model's real-valued slider cannot hold.
- The warning the data-frame library emits on line 105 and its siblings ("Boolean Series key will be reindexed to match DataFrame index") is not modelled; only the label-aligned result is, and nothing depends on the warning.
- The `cls` column is not restricted to 0 or 1. Neither callback depends on its values.

## Findings

| source | as written | input that shows it | evidently intended | confidence | as-written member | corrected member |
|---|---|---|---|---|---|---|
| Notebooks/spacex_dash_app.py:22-33 | the comment says the default selection is all sites, but the dropdown declares no `value`, so the callbacks first receive `None`, no branch assigns `fig`, and `return fig` raises | the page's first load, dropdown untouched | `value='OPT1'` on the dropdown, so the first charts show all sites | not executed; high | Dashboard.InitialRenderFails | Dashboard.IntendedInitialRender |
