# LG soundbar metrics handler — a Dafny model

`lg_soundbar_query.py` asks an LG soundbar for one kind of status report
and turns the reply into Zabbix items. Its response handler `callback`
does four things:

- It ignores a reply whose message type is not in the table `RELEVANT_FIELDS`.
- It keeps only the allowed fields of a flat message type. For
  `UPDATE_VIEW_INFO` it expands every mapping-valued field into
  `outer__inner` keys instead.
- It replaces an empty value by `""` for a string item (one whose name
  starts with `s`) and by `0` otherwise.
- It pipes each line `- <type lowercased>[<key>] <value>` to `zabbix_sender`.
  The first non-zero exit status ends the process with code 1.

`main` accepts one of nine endpoint names and calls the matching query of
the device client.

The model has seven modules:

- `Values`: the decoded JSON values, Python truthiness and the `str()`
  rendering of a value. The rendering of an integer is proved to read
  back as the same integer.
- `AllowList`: the `RELEVANT_FIELDS` table, with its exact entries.
- `Metrics`: the pure selection of `(key, value)` metrics from one reply.
  `Filter` is characterised by position:
  - for a flat type, metric `k` is the `k`-th allowed field;
  - for `UPDATE_VIEW_INFO`, metric `k` is the `k`-th nested entry, in
    lexicographic order of (field, entry).
- `MetricLines`: the line format, and a reader of that format. The
  reader splits a line into host, item key and value. A value enclosed in
  double quotes stands for the text between them. So the `""` that the
  handler writes for an empty string item reads as the empty value.
- `Handler`: the fail-fast submission specification `Submission` and the
  imperative `Callback`. `Callback` has the source's nested loops and its
  early exit from the inner loop. It is proved to produce exactly the trace
  `Submission(Lines(msg, data), send)`.
- `Cli`: the endpoint choices and the `if`/`elif` dispatch of `main`.
- `Scenarios`: concrete replies and the metrics and lines they yield.

The sender is a parameter `send: string -> int`: the exit status of the
shell pipeline for a given line. A reply is `Response(msg, data)`, where
`data` lists the items of the reply's `data` mapping in iteration order.

## Model

| member | source | states |
|---|---|---|
| AllowList.TableShape | lg_soundbar_query.py:10-17 | The table has exactly the five message types; only `UPDATE_VIEW_INFO` carries the nested marker instead of a name list |
| Values.DecimalRoundTrip | lg_soundbar_query.py:39 | The decimal rendering `str(i)` of any integer, negative ones included, reads back as `i` |
| Values.NatDigits | lg_soundbar_query.py:55 | The decimal digits of a natural number: at least one digit, and no leading zero unless the number is 0 |
| Values.NatDigitsRoundTrip | lg_soundbar_query.py:55 | The digits of a natural number are all decimal digits and denote that number |
| Metrics.Normalize | lg_soundbar_query.py:33-37 | A truthy value is kept; a falsy one renders as `""` when the deciding name starts with `s`, and as `0` otherwise; the rendering is never empty |
| Metrics.UnknownMessageIgnored | lg_soundbar_query.py:21-22 | A message type outside the table yields no metric |
| Metrics.SelectedAscending | lg_soundbar_query.py:24 | The positions of the allowed fields are strictly increasing and inside the reply |
| Metrics.SelectedComplete | lg_soundbar_query.py:25-26 | A position is selected exactly when its field name is in the allow-list |
| Metrics.FlatFilter | lg_soundbar_query.py:49-55 | For a flat type, there is one metric per selected field, and metric `k` is field `ix[k]` under its own name with its value normalised by that name |
| Metrics.FlatSelection | lg_soundbar_query.py:25-26 | For a flat type, a field yields a metric if and only if its name is in the allow-list: every metric key is an allowed name, and every allowed field yields its normalised metric |
| Metrics.CollectAppend | lg_soundbar_query.py:24 | The metrics of two consecutive runs of fields are the metrics of the first followed by those of the second |
| Metrics.FieldSplit | lg_soundbar_query.py:24 | Field `i` contributes its metrics between those of the earlier and those of the later fields |
| Metrics.NestedExpansion | lg_soundbar_query.py:30-39 | A mapping field yields one metric per nested entry, in entry order, keyed `outer__inner` and normalised by the inner name, not the composite key |
| Metrics.UpdateViewInfoField | lg_soundbar_query.py:28-30 | For `UPDATE_VIEW_INFO`, a mapping-valued field contributes its nested metrics and a scalar field contributes nothing, whatever its name |
| Metrics.NestedPositionsBounds | lg_soundbar_query.py:29-30 | Every nested position names an existing entry of a mapping-valued field |
| Metrics.NestedPositionsOrdered | lg_soundbar_query.py:24-30 | The nested positions are strictly increasing lexicographically: outer fields in order, then entries in order |
| Metrics.NestedPositionsComplete | lg_soundbar_query.py:28-30 | A pair (field, entry) is a nested position exactly when the field is mapping-valued and the entry exists |
| Metrics.EntryMetricPrefix | lg_soundbar_query.py:39 | Appending a field does not change the metric of an existing nested position |
| Metrics.BoundsExtend | lg_soundbar_query.py:29-30 | Appending a field keeps the positions in bounds, together with that field's own entry positions |
| Metrics.MatchesExtend | lg_soundbar_query.py:30-39 | Appending a field keeps metric `k` equal to the entry at position `k`, together with that field's nested metrics |
| Metrics.NestedFilter | lg_soundbar_query.py:28-39 | For `UPDATE_VIEW_INFO`, there is one metric per nested position, and metric `k` is the `outer__inner` entry at position `k`; the allow-list plays no part |
| MetricLines.LowerKeeps | lg_soundbar_query.py:39 | Lowercasing adds no space and no bracket to the message type |
| MetricLines.SplitAtFirst | lg_soundbar_query.py:55 | Splitting at the first separator recovers the text before it and the text after it |
| MetricLines.LineRoundTrip | lg_soundbar_query.py:55 | The line format reads back as host `-`, item key `<lowercased type>[<key>]` and the value the rendering stands for, with surrounding double quotes removed. The item key reads back as type and key. Requires that neither type nor key contains a space and that the type contains no `[` |
| MetricLines.EmptyValueRead | lg_soundbar_query.py:47-55 | An empty value reads back from its line as the empty value for a string item and as `0` otherwise |
| MetricLines.FormatAppend | lg_soundbar_query.py:39 | The lines of two metric runs are the lines of the first followed by those of the second |
| MetricLines.FormatAt | lg_soundbar_query.py:39 | There is one line per metric, in order: line `k` is the line of metric `k` |
| Handler.SubmissionPrefix | lg_soundbar_query.py:41-44 | What is sent is a prefix of the lines, in order |
| Handler.SubmissionAcceptedBefore | lg_soundbar_query.py:57-60 | Every sent line before the last was accepted by the sender |
| Handler.SubmissionReturns | lg_soundbar_query.py:57-60 | The handler returns exactly when every line is accepted, and then every line was sent |
| Handler.SubmissionExits | lg_soundbar_query.py:41-44 | Otherwise the process exits with code 1 right after the last sent line, which the sender rejected |
| Handler.SubmissionStopsAt | lg_soundbar_query.py:41-44 | If line `k` is the first rejected one, exactly lines `0..k` are sent and the exit code is 1 |
| Handler.SubmissionStep | lg_soundbar_query.py:57-60 | Sending one line either ends with exit code 1 or continues with the remaining lines |
| Handler.AfterAfter | lg_soundbar_query.py:41 | Recording two batches of sent lines is the same as recording their concatenation |
| Handler.KnownLines | lg_soundbar_query.py:21-22 | For a table message type, the lines are those of the metrics collected under its allow-list |
| Handler.FieldStep | lg_soundbar_query.py:24 | The lines from field `i` on are field `i`'s lines followed by those of the later fields |
| Handler.NestedStep | lg_soundbar_query.py:30 | The lines from nested entry `j` on are entry `j`'s line followed by the rest |
| Handler.NestedAdvance | lg_soundbar_query.py:39-44 | Sending nested entry `j`'s line either stops the trace there with code 1 or goes on with entry `j + 1` |
| Handler.FlatAdvance | lg_soundbar_query.py:55-60 | Sending a flat field's line either stops the trace there with code 1 or goes on with the rest |
| Handler.SendEntries | lg_soundbar_query.py:29-44 | The inner loop sends the line of every nested entry in order and stops at the first rejection; the trace then ends with code 1 or goes on with the remaining fields |
| Handler.SendField | lg_soundbar_query.py:25-60 | One outer iteration skips a field outside the allow-list and a scalar `UPDATE_VIEW_INFO` field, expands a mapping field and sends an allowed flat field; the trace continues accordingly |
| Handler.Callback | lg_soundbar_query.py:19-60 | The lines sent and the outcome are exactly the fail-fast submission of `Lines(msg, data)` |
| Handler.UnknownMessageSendsNothing | lg_soundbar_query.py:21-22 | A reply of a type outside the table sends nothing and returns |
| Cli.ParseName | lg_soundbar_query.py:67-68 | Every endpoint's name is one of the choices and parses back to that endpoint |
| Cli.ParseAcceptsChoices | lg_soundbar_query.py:67-68 | A string is accepted exactly when it is one of the nine choices, and it is then the name of the endpoint it denotes |
| Cli.QueryForInjective | lg_soundbar_query.py:149-166 | Distinct endpoints dispatch distinct queries |
| Cli.DispatchOutcome | lg_soundbar_query.py:149-166 | Exactly one query is dispatched, with the given address, exactly when both arguments are present and the endpoint is a choice; otherwise the result is the usage error with exit code 2 |
| Scenarios.MacInfoMetrics | lg_soundbar_query.py:49-53 | A `MAC_INFO_DEV` reply keeps its three allowed fields in order, and the empty wired address becomes `""` |
| Scenarios.MacInfoWiredLine | lg_soundbar_query.py:55 | The empty wired address gives the line `- mac_info_dev[s_wired_mac] ""` |
| Scenarios.MacInfoWirelessLine | lg_soundbar_query.py:55 | The wireless address gives the line `- mac_info_dev[s_wireless_mac] aa:bb` |
| Scenarios.MacInfoBtLine | lg_soundbar_query.py:55 | The Bluetooth address gives the line `- mac_info_dev[s_bt_mac] cc:dd` |
| Scenarios.MacInfoLines | lg_soundbar_query.py:24-55 | The `MAC_INFO_DEV` reply submits exactly its three lines, in reply order |
| Scenarios.MacInfoDropsUnlisted | lg_soundbar_query.py:25-26 | A field outside the allow-list (`s_uuid`) is dropped |
| Scenarios.UpdateViewInfoMetrics | lg_soundbar_query.py:28-37 | Nested keys are `outer__inner`, an empty number becomes `0`, an empty string `""`, and a scalar top-level field is skipped |
| Scenarios.UpdateViewInfoZeroLine | lg_soundbar_query.py:39 | The empty nested number gives the line `- update_view_info[group1__i_x] 0` |
| Scenarios.UpdateViewInfoEmptyLine | lg_soundbar_query.py:39 | The empty nested string gives the line `- update_view_info[group1__s_y] ""` |
| Scenarios.UpdateViewInfoLines | lg_soundbar_query.py:24-39 | The `UPDATE_VIEW_INFO` reply submits exactly its two nested lines, in order |
| Scenarios.NestedNameDecides | lg_soundbar_query.py:33-37 | An outer name starting with `s` does not make an empty nested number a string |
| Scenarios.SecondLineRejected | lg_soundbar_query.py:41-44 | With the second of three lines rejected, the third is never sent and the exit code is 1 |
| Scenarios.UnsupportedEndpoint | lg_soundbar_query.py:66-68 | An endpoint outside the choices (`radio_info`) stops with the usage error, exit code 2 |

## Left out

- The `temescal` device client (lg_soundbar_query.py:2, 148) is left out. This covers the network connection, request framing, JSON decoding, asynchronous delivery of the reply and the indefinite wait for it. It is a foreign library. Which endpoint yields which message type is decided inside it, so the model states no endpoint-to-type mapping.
- `os.system`, the shell `echo … | zabbix_sender` pipeline and its quoting are left out. The sender is the parameter `send`, a pure function of the line.
- `pprint` and the `print` diagnostics are left out. They are output only.
- The `argparse` mechanics and the help text are left out. The model keeps the choice set, the two required arguments and the usage-error exit status 2. The help text lists fields outside `RELEVANT_FIELDS`. It is documentation, not the allow-list.
- Values.Render: Python's repr of a non-empty mapping, which reaches a line through a truthy dict in a flat field or in a nested entry of `UPDATE_VIEW_INFO`, is rendered as the placeholder `{...}`. Floats and lists are not among the modelled values.
- MetricLines.SenderValue: the line reader removes one pair of surrounding double quotes. It does not model backslash escapes inside quotes, a quoted host or a quoted item key, or the rejection of an unbalanced quote.
- MetricLines.Lower: lowercases ASCII letters only. Only the table's message types reach it, and they are ASCII.
- A reply missing its `msg` or `data` key raises `KeyError` in Python. The model takes both as present.
- Handler.Callback: models `sys.exit(1)` as the outcome `Exited(1)`, returned to the caller, rather than as the end of the process.
