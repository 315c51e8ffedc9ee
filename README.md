# gigarandr: a verified model of the monitor switcher

gigarandr is a small Python script that reconfigures X11 displays through
`xrandr`. It asks `xrandr --query` which outputs are connected. It splits them
into the laptop panel (the first output whose name contains `eDP`) and the
external outputs (every output whose name does not contain `eDP`, in query
order). Any further `eDP` output is ignored: it is neither configured nor
switched off. Then it issues one `xrandr` call:

- **Docked mode** applies when external outputs are present. Every external
  output whose first listed resolution is known is placed `--above` the laptop.
  The first one placed becomes `--primary`. The laptop gets its own mode only
  when its resolution is known.
- **Mobile mode** applies when there are no external outputs. Only the laptop
  is set up: with its mode when the resolution is known, with `--auto` alone
  otherwise.
- In both modes the call ends by switching every external output `--off`.

The model has five modules:

- `Wrappers` holds `Option` and `Result`.
- `Seqs` holds the list-comprehension filter and its laws.
- `Text` holds the Python string operations the script relies on:
  - `sub in s`;
  - `s.split('\n')` and `'\n'.join`;
  - `s.split()` over Python's whitespace set, with its inverse `' '.join`.
- `Inventory` holds `get_connected_monitors`. It is a pure function of the
  query text.
- `Layout` holds `manage_monitors` in two forms:
  - an imperative method that grows the `commands` list in the same two
    loops, with the same `primary_set` flag;
  - the specification functions it is proved against.

  A directive view (`XOption`) of the argument list reads back
  unambiguously. Properties about directives therefore carry over to the
  tokens.

The resolution lookup `get_monitor_capabilities` becomes a parameter
`caps: string -> Option<string>`. It returns the resolution of an output, or
`None` when nothing is known. The final `subprocess.call` becomes the value
`ManageMonitors` returns.

## Model

| member | source | states |
|---|---|---|
| Text.ContainsIff | gigarandr.py:68 | the scan used for `' connected' in line` holds exactly when the marker occurs at some index of the line |
| Text.JoinSplit | gigarandr.py:68 | joining the pieces of `output.split('\n')` with newlines gives the query text back |
| Text.SplitJoin | gigarandr.py:68 | splitting newline-free lines joined by newlines gives exactly those lines |
| Text.WordsAreWords | gigarandr.py:68 | every token of `line.split()` is non-empty and free of whitespace |
| Text.WordsEmpty | gigarandr.py:68 | `line.split()` is empty exactly when the line is all whitespace |
| Text.WordsUnwords | gigarandr.py:68 | `split()` of words joined by single spaces gives the words back |
| Inventory.ConnectedLineHasWord | gigarandr.py:68 | a line kept by the filter always has a first token, so `line.split()[0]` cannot fail, and that token is the line's first word |
| Inventory.ConnectedNames | gigarandr.py:68 | the comprehension `[line.split()[0] for line in lines if ' connected' in line]`: one name per kept line (`ConnectedNamesSpec` gives the names themselves) |
| Inventory.ConnectedNamesSpec | gigarandr.py:68 | the names are exactly the first tokens of the lines containing `' connected'`, one per such line, in line order |
| Inventory.ConnectedNamesAreWords | gigarandr.py:68 | every returned name is non-empty and free of whitespace |
| Inventory.ConnectedMonitors | gigarandr.py:66-68 | `get_connected_monitors` on the query text: the comprehension over `output.split('\n')`; every name is a non-empty whitespace-free token (`ConnectedMonitorsOfLines` and `QueryOfThreeOutputs` give the names) |
| Inventory.ConnectedMonitorsOfLines | gigarandr.py:66-68 | the query text of newline-free lines is read line by line |
| Inventory.ConnectedLineName | gigarandr.py:68 | a line `NAME connected ...` is kept and yields `NAME` |
| Inventory.DisconnectedLineDropped | gigarandr.py:68 | a line `NAME disconnected ...` is dropped when `NAME` holds no space and the rest holds no `' connected'` |
| Inventory.QueryOfThreeOutputs | gigarandr.py:66-68 | a query with a connected panel, a disconnected output and a connected external yields the two connected names, in order |
| Layout.Externals | gigarandr.py:72 | `[m for m in monitors if not 'eDP' in m]`; with the panels it accounts for every output, so each output is exactly one of the two |
| Layout.ExternalsMembers | gigarandr.py:72 | every external is an output whose name does not contain `eDP`, and every such output is an external |
| Layout.ExternalsAppend | gigarandr.py:72 | the externals of a concatenation are the externals of each part in turn, so input order and repeats are kept |
| Layout.ExternalsOne | gigarandr.py:72 | a single output is kept exactly when its name does not contain `eDP` |
| Layout.LaptopMonitor | gigarandr.py:73 | `[m for m in monitors if 'eDP' in m][0]`, None where the indexing raises; a laptop found is one of the outputs and contains `eDP` (`LaptopMonitorSpec`, `LaptopIsFirstPanel`) |
| Layout.LaptopMonitorSpec | gigarandr.py:73 | there is no laptop exactly when no name contains `eDP` |
| Layout.LaptopIsFirstPanel | gigarandr.py:73 | the laptop is the first output whose name contains `eDP` |
| Layout.ReadBackRender | gigarandr.py:82-101 | the emitted tokens read back as exactly the directives that produced them |
| Layout.PlaceExternalTokens | gigarandr.py:79-85 | one pass of the docked loop adds nothing for an output of unknown resolution; otherwise it adds `--output m --mode res --auto --above L`, then `--primary` when not yet given |
| Layout.LaptopTokens | gigarandr.py:87-98 | the laptop gets `--output L --mode res --auto` when its resolution is known; otherwise it gets nothing when docked and `--output L --auto` when mobile |
| Layout.PlaceExternals | gigarandr.py:77-85 | the docked loop appends exactly the docked placements; its invariant ties `primary_set` to "some output seen so far has a known resolution" |
| Layout.SwitchOff | gigarandr.py:100-101 | the closing loop appends `--output m --off` for every external output, in order |
| Layout.ManageMonitors | gigarandr.py:70-103 | the argument list is exactly the one the specification builds from the outputs and `caps`; a missing `eDP` output is the failure at line 73; `state` plays no part |
| Layout.CommandLineShape | gigarandr.py:71-73 | the call fails exactly when no output contains `eDP`; otherwise it starts with `xrandr` and the rest reads back as the planned directives |
| Layout.MobileMode | gigarandr.py:91-98 | with no external outputs the call is exactly `xrandr --output L --mode res --auto`, or `xrandr --output L --auto` when the resolution is unknown |
| Layout.PrimaryCount | gigarandr.py:77-85 | the docked loop emits `--primary` once when some external has a known resolution and `primary_set` was false, and never otherwise |
| Layout.PrimaryFollowsFirstPlaced | gigarandr.py:78-85 | the docked part opens with the placement of the first external of known resolution, directly followed by `--primary` |
| Layout.DockedPrimary | gigarandr.py:75-101 | in docked mode the whole call carries `--primary` exactly once when some external has a known resolution, and not at all otherwise |
| Layout.DockingPlacements | gigarandr.py:78-82 | apart from `--primary`, the docked loop emits exactly the placements of the externals of known resolution, in external order; the others get none |
| Layout.DockedLaptopNeedsMode | gigarandr.py:86-90 | in docked mode a laptop of unknown resolution gets no `--output L` directive, so no bare `--auto` fallback; it still appears as the argument of `--above L` whenever some external is placed |
| Layout.OffTokens | gigarandr.py:100-101 | the closing part is three tokens per external, block k being `--output m_k --off` |
| Layout.CommandLineEndsWithOffs | gigarandr.py:100-103 | in both modes the argument list ends with `--output m --off` for every external output, in order |

## Left out

- Running `xrandr`: the query at gigarandr.py:67 is the `output` parameter of `Inventory.ConnectedMonitors`. The call at line 103 is the value `Layout.ManageMonitors` returns. The `.decode()` from UTF-8 is not modelled: the query is given as text.
- `get_monitor_capabilities` (gigarandr.py:43-64) is the parameter `caps`. Its regular expression, the float parsing of refresh rates and their maximum are not modelled. The refresh rate is unpacked but never used in a token. As written, the function raises `NameError` at line 46, because `re` is never imported. The model treats the lookup as working.
- Each call of `get_monitor_capabilities` reruns `xrandr --query`. The model assumes the answers for one output agree within a run.
- Configuration and state files (`ensure_config_directory`, `load_config`, `load_state`, `save_state`, gigarandr.py:11-37) are filesystem and JSON I/O. So is the state `main` saves at line 115, which maps every connected output to `True`.
- `run_hook` (gigarandr.py:39-41) runs shell commands and is not modelled.
- `main` (gigarandr.py:105-116) is I/O glue and is not modelled.
- No output is chosen by keywords such as "laptop", "largest" or "external-N", and no position, primary or refresh rate is declared. The script has no such resolver: every external it places goes `--above` the laptop.
