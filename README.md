# Billing report cost arithmetic

A Dafny model of the cost arithmetic inside the Linode billing-report
generator (`scripts/generate_billing_report.py`). The generator reads the
account's Linode instances and LKE (Kubernetes) clusters with their node
pools, and then draws a cost-structure diagram, a pie chart of instance types
and a PDF. This model covers the logic those outputs are computed from:

- **Price lookup** (`Pricing`): the monthly list price of an instance type.
  Ten `g6-*` types are listed. Any other string is charged like
  `g6-standard-2` (24 dollars).
- **Type counting** (`TypeCounts`): the `type_counts` dictionary built by the
  grouping loop that the diagram and the pie chart both run. A missing `type`
  is counted as `"Unknown"`. A Python dictionary keeps insertion order, so the
  model stores it as a sequence of (type, count) entries in that order.
- **Monthly total** (`Estimate`): the `total_monthly` accumulator. It adds
  every instance at its price, then every pool of every cluster at price
  times size.
- **Executive summary** (`ExecutiveSummary`): the compute-only estimate row
  of the PDF's summary table.
- **Diagram content** (`CostDiagram`): which category boxes are drawn, in
  which order. Also which detail columns are filled, the detail lines with
  their costs, and what appears at the bottom (the estimate box, "no billable
  resources", or nothing).
- **Pie chart data** (`ResourceChart`): the chart's labels and sizes, or no
  chart.
- **Pool summary** (`ClusterTable`): the "Node Pools" cell of the Kubernetes
  table, such as `"3x g6-standard-2, 1x g6-standard-4"` or `"No pools"`.

Money is a whole number of US dollars (`int`), since every listed price is a
whole number of dollars. Provider records are datatypes that keep only the
fields the arithmetic reads. A field the JSON record may lack is an `Option`.
A cluster without a `pools` key has an empty pool sequence.

Three loops of the source that build a value are methods with loop
invariants, each proved against a specification function:

- `CountTypes` is proved against `Tally`.
- `MonthlyTotal` is proved against `InstancePart` + `WorkerPart`.
- `PoolSummary` is proved against `Summary`.

The lemmas then state what the source relies on about those functions.

The two diagram loops that only draw text (the compute details at lines
191-201 and the worker details at lines 214-225) are rendered as the
functions `CostDiagram.ComputeLines`, `CostDiagram.PoolLines` and
`CostDiagram.WorkerLines`. Each gives the sequence of lines drawn, in order.
The executive summary's compute cost (line 362) is a one-shot `sum`. It is
modelled as `Sums.Sum` over the per-instance prices.

The repository also provisions a cluster, binds a load balancer and cleans up
after teardown. That provisioning, binding and cleanup logic is not part of
this model.

## Model

| member | source | states |
|---|---|---|
| `Pricing.MonthlyCost` | scripts/generate_billing_report.py:104-118 | Every price lies between 5 and 768 dollars. An unlisted type costs what `g6-standard-2` costs. A price is 24 exactly when the type is `g6-standard-2` or is unlisted. |
| `Pricing.ListedPrices` | scripts/generate_billing_report.py:106-118 | Gives the listed price of each of the ten `g6-*` types. `""` and `"Unknown"` cost the 24-dollar fallback. |
| `TypeCounts.Find` | scripts/generate_billing_report.py:189 | Dictionary key lookup: it returns the first position holding the key, or the length when the key is absent. |
| `TypeCounts.BumpKeys` | scripts/generate_billing_report.py:189 | `d[t] = d.get(t, 0) + 1` keeps the keys distinct. Its keys are the old keys plus `t`. |
| `TypeCounts.BumpCountOf` | scripts/generate_billing_report.py:189 | The increment adds one to the count of `t`. Every other key's count is unchanged. |
| `TypeCounts.BumpSums` | scripts/generate_billing_report.py:189-193 | The increment adds 1 to the sum of the counts. It adds the unit cost of `t` to the sum of unit cost times count. |
| `TypeCounts.TallyIsGrouping` | scripts/generate_billing_report.py:186-189 | After the grouping loop the keys are distinct. The keys are exactly the types that occur, with a missing type read as "Unknown". Each key's count is its number of instances, so at least 1. The counts sum to the number of instances. |
| `TypeCounts.TallyCost` | scripts/generate_billing_report.py:186-193 | The sum over type groups of unit cost times count equals the instance part of the monthly total. This holds because "Unknown" and "" have the same price. |
| `TypeCounts.CountTypes` | scripts/generate_billing_report.py:186-189 | The loop builds the insertion-ordered grouping `Tally`. Its keys are distinct, each count is that type's number of instances (at least 1), and the counts sum to the number of instances. |
| `ResourceChart.ChartData` | scripts/generate_billing_report.py:264-276 | There is no chart exactly when there are no instances. Otherwise the labels are the grouping's keys and the sizes are its counts. Each size is at least 1 and the sizes sum to the number of instances. |
| `Estimate.MonthlyTotal` | scripts/generate_billing_report.py:229-240 | The nested accumulation yields the instance part plus the worker part. The instance part is each instance priced by `type` or "". The worker part is each pool priced by `type` or "g6-standard-2", times `count` or 0. |
| `Estimate.UnitPricesSum` | scripts/generate_billing_report.py:362 | The sum of the per-instance prices, each priced by `type` or "", equals the instance part that the accumulator at lines 232-233 builds. |
| `ExecutiveSummary.ComputeEstimate` | scripts/generate_billing_report.py:361-363 | The compute-cost row is present exactly when there are instances. Its value, a `sum` over the instances, equals the instance part of the monthly total. It also equals the sum over type groups of unit cost times count. |
| `Estimate.InstancePartBounds` | scripts/generate_billing_report.py:232-233 | The instance part lies between 5 and 768 dollars per instance. |
| `Estimate.PoolPartSign` | scripts/generate_billing_report.py:237-240 | With no negative pool sizes, a cluster's worker cost is never negative. It is positive exactly when some pool has a worker. |
| `Estimate.WorkerPartSign` | scripts/generate_billing_report.py:236-240 | With no negative pool sizes, the worker part over all clusters is never negative. It is positive exactly when some pool of some cluster has a worker. |
| `Estimate.MonthlyTotalPositive` | scripts/generate_billing_report.py:228-242 | With no negative pool sizes, the monthly total is positive exactly when there is an instance or a pool with a worker. |
| `CostDiagram.PlanSections` | scripts/generate_billing_report.py:152-205 | "Compute Resources" is a category exactly when there are instances. "Kubernetes (LKE)" is one exactly when there are clusters, and when both are present they come in that order. Compute details are drawn exactly when there are instances, under the Compute box. Worker details are drawn exactly when both categories are present, under the Kubernetes box. |
| `CostDiagram.ComputeLine` | scripts/generate_billing_report.py:191-201 | A group's line meets `DescribesGroup`: it costs unit cost times count, so with count 1 the unit cost. With a count above 1 the text reads back as that count and type. Otherwise the text is the bare type. |
| `CostDiagram.DescribesGroupExact` | scripts/generate_billing_report.py:194-198 | A group line that reads back as its count and type is exactly "{count}x {type}" above count 1, and the bare type otherwise: the reading-back pins the text. |
| `CostDiagram.ComputeLines` | scripts/generate_billing_report.py:191-201 | The compute details column has one line per type group, in dictionary order, and no more lines than instances. Each line meets `DescribesGroup` for its type and that type's number of instances. Its text is "{count}x {type}" when the type occurs more than once and the bare type otherwise, and it costs the unit cost times the count. |
| `CostDiagram.ComputeLinesTotal` | scripts/generate_billing_report.py:185-201 | The compute details column adds up to the instance part of the monthly total. |
| `CostDiagram.WorkerLine` | scripts/generate_billing_report.py:221-224 | One worker line meets `DescribesPool` for its pool. Its text ends in " workers", and the part before reads back as the pool's count (default 0) and type (default "g6-standard-2"). It costs the type's price times the count. |
| `CostDiagram.DescribesPoolExact` | scripts/generate_billing_report.py:222 | A line that meets `DescribesPool` has exactly the text "{count}x {type} workers": the reading-back pins the text. |
| `CostDiagram.PoolLines` | scripts/generate_billing_report.py:215-225 | One cluster's worker lines: exactly one per pool with a worker (`ActivePools`, counted independently), in pool order. Each line's text, minus the trailing " workers", reads back through `ParseCountedLabel` as that pool's count and type, and the line costs the type's price times the count. |
| `CostDiagram.WorkerLines` | scripts/generate_billing_report.py:214-225 | The worker details column: exactly one line per pool with a worker across all clusters (`ActiveWorkers`), cluster after cluster and pool after pool. Each line reads back as that pool's count and type and costs price times count. |
| `CostDiagram.PoolLinesTotal` | scripts/generate_billing_report.py:215-225 | With no negative pool sizes, one cluster's worker lines add up to its worker cost. |
| `CostDiagram.WorkerLinesTotal` | scripts/generate_billing_report.py:212-225 | With no negative pool sizes, the worker details column adds up to the worker part of the monthly total. A pool without workers gets no line and costs nothing. |
| `CostDiagram.DiagramFooter` | scripts/generate_billing_report.py:227-252 | "No active billable resources" is shown exactly when there are neither instances nor clusters. An estimate box shows a positive amount equal to the monthly total. |
| `CostDiagram.FooterChoice` | scripts/generate_billing_report.py:227-252 | With no negative pool sizes, the estimate box is drawn exactly when there is an instance or a pool with a worker. "No active billable resources" appears exactly when there are neither instances nor clusters. Nothing appears when there are clusters without workers and no instances. |
| `Text.IntToString` | scripts/generate_billing_report.py:426 | Python `str` of an integer is non-empty and made of digits and a minus sign. It starts with '-' exactly for negatives. It has no leading zero except for 0 itself. |
| `Text.ParseIntExact` | scripts/generate_billing_report.py:426 | The only text read back as an integer is its Python `str`: no leading zeros, no "-0". |
| `Text.IntToStringRoundTrip` | scripts/generate_billing_report.py:426 | Every integer is read back from its decimal form. |
| `Text.CountedLabelRoundTrip` | scripts/generate_billing_report.py:426 | The label "{count}x {type}" is read back into its count and type, for every count and type. |
| `Text.CountedLabelExact` | scripts/generate_billing_report.py:426 | The only text read back as a given count and type is the label "{count}x {type}" itself. |
| `ClusterTable.PoolSummary` | scripts/generate_billing_report.py:424-427 | The loop builds one entry per pool, in pool order, and joins them with ", ". With no pools the result is "No pools". |
| `ClusterTable.ParseJoinedEntries` | scripts/generate_billing_report.py:425-427 | When no pool type contains a comma, the joined entries of one or more pools are read back into each pool's count (default 0) and type (default "unknown"), in order. |
| `ClusterTable.NoPoolsExactly` | scripts/generate_billing_report.py:427 | The summary is "No pools" if and only if the cluster has no pools. |
| `ClusterTable.SummaryRoundTrip` | scripts/generate_billing_report.py:424-427 | When no pool type contains a comma, the summary is read back into each pool's count and type, in pool order. So the summary loses nothing. |

## Left out

- `run_linode_cli` and `collect_data`: these run `linode-cli` as a subprocess and decode its JSON. The model takes their results as parameters.
- Drawing with matplotlib: box coordinates, `x_positions`, text placement, pie colours and percentages, and saving PNG files. This is graphics with floating-point layout. The diagram's content is modelled as values.
- PDF assembly with reportlab, including table styles. The per-instance rows of the resource table are left out. Their cost column is the same lookup that `Estimate.InstancePart` sums.
- "Total Due", the sum of `balance` and `balance_uninvoiced`: it parses provider strings as floats.
- The display of amounts with a dollar sign and two decimals. Amounts stay whole dollars.
- Timestamps, directory creation and console output.
- The diagram's `total_worker_cost` accumulator (lines 213-219) is never read by the source. It adds every pool, including pools with zero or negative counts, so its value is `Estimate.WorkerPart(clusters)` for every input. It equals the sum of the worker lines only when no pool size is negative (`CostDiagram.WorkerLinesTotal`).
- The constant "Control Plane: Free" line of the worker column.
- Fields present with a JSON `null`, and fields of non-string or non-integer type. The model has each field either present with the expected type or absent.
- Negative pool sizes are allowed in the model. The sign results (`Estimate.PoolPartSign`, `Estimate.WorkerPartSign`, `Estimate.MonthlyTotalPositive`, `CostDiagram.PoolLinesTotal`, `CostDiagram.WorkerLinesTotal`, `CostDiagram.FooterChoice`) assume none.
- `ClusterTable.SummaryRoundTrip`: this only holds for pool types without a comma. With a comma inside a type the summary can be ambiguous (for example a type `a, 1x b`), and the parser accepts no comma inside a type.
