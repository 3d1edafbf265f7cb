# InfraGmen connection watcher — a Dafny model

InfraGmen (`infra.py`) is a small desktop monitor. Every few seconds it lists the
machine's established network connections. For each connection it has not seen
before, it looks up the owning process and the remote host name. It then
classifies the remote end against two operator-maintained rule files
(`blacklist.csv`, `whitelist.csv`) and logs one line to an "alert" or a "normal"
tab. This project models the non-GUI core of its watcher class,
`CompactZenWatcher`:

- `Rules` (`rules.dfy`): `_read_csv`, which turns a rule file into three tables
  (keywords, ports, IPs). It uses `PyInt` (`pyint.dfy`), a model of Python's
  `int()` on strings, and `OrderedDict` (`ordered_dict.dfy`), a Python dict with
  its insertion order.
- `Classifier` (`classifier.dfy`): the black/white decision of `monitor`, the
  tab and tag the report goes to, and the `??WEB??` reason column.
- `Display` (`display.dfy`): `get_display_width` and `zen_slice_and_fill`, the
  fixed-width column padding.
- `Watcher` (`watcher.dfy`): the class itself. It holds the rule tables and
  `active_connections`, and `Cycle` is one pass of the `monitor` loop.

The operating system, the resolver and the rule files are inputs:

- a snapshot is `Option<seq<Conn>>`, where `None` means `psutil.net_connections` raised;
- a rule file is the sequence of rows `csv.DictReader` yields, or `None` when the file does not exist;
- process-name and reverse-DNS lookups return `Option<string>`, and a failed lookup gives the sentinels "Unknown" and "Unknown-Host".

Unicode East Asian Width and `str.lower` are parameters: `wide: char -> bool` and
`lower: string -> string`.

Two behaviours of the code worth knowing:

- The rule loader does not skip a malformed row and carry on. The `try` wraps the
  whole loop, so the first row that raises (a `port` row that `int()` rejects)
  ends the load, and the rows before it are kept (`Rules.LoadStopsAtFirstRaise`).
- Closed connections are deleted from `active_connections` without any
  report (`Watcher.Watcher.Expire`).

## Model

| member | source | states |
|---|---|---|
| `Display.DisplayWidth` | infra.py:35-36 | defines `get_display_width`: two columns for each wide character, one for every other |
| `Display.SliceAndFill` | infra.py:38-50 | defines `zen_slice_and_fill` on values: the longest prefix fitting `width - 1` columns, a space if the text was cut, then spaces up to `width` |
| `Display.DisplayWidthAppend` | infra.py:35-36 | the display width of a concatenation is the sum of the widths |
| `Display.DisplayWidthBounds` | infra.py:35-36 | a string takes between one and two columns per character |
| `Display.Spaces` | infra.py:50 | `' ' * n`: n spaces for positive n, none otherwise |
| `Display.SpacesWidth` | infra.py:50 | `' ' * n` takes n columns when n is positive and none otherwise, given a narrow space |
| `Display.NarrowWidth` | infra.py:36 | a string of narrow characters takes one column per character |
| `Display.FitPrefixIsLongest` | infra.py:42-49 | the kept prefix fits in the budget, and one more character would not |
| `Display.SliceAndFillShape` | infra.py:38-50 | for width >= 1, the result is the longest prefix fitting width-1 columns followed by at least one space |
| `Display.SliceAndFillWidth` | infra.py:38-50 | for width >= 1 and a narrow space, the result is exactly `width` columns wide |
| `Display.SliceAndFillEmpty` | infra.py:38-50 | empty text becomes `width` spaces |
| `Display.SliceAndFillNonPositive` | infra.py:44-47 | for width <= 0, non-empty text becomes one space, wider than asked |
| `Display.ZenSliceAndFill` | infra.py:38-50 | the loop with early break computes exactly `SliceAndFill` |
| `PyInt.ParseInt` | infra.py:60 | defines `int(p)`: whitespace skipped on both sides, an optional sign, digits grouped by single underscores, at most 4300 digits; `None` where `int` raises |
| `PyInt.ParseIntShowInt` | infra.py:60 | `int()` reads back the decimal notation of any integer of at most 4300 digits, surrounded by any whitespace `int()` skips (ASCII tab to carriage return and space, and non-ASCII Unicode spaces) |
| `PyInt.ParseIntTooManyDigits` | infra.py:60 | `int()` rejects a run of more than 4300 digits |
| `PyInt.SeparatorIsNotSpace` | infra.py:60 | U+001C before the digits makes `int()` raise: it is not skipped as whitespace |
| `OrderedDict.Get` | infra.py:59-61 | defines lookup in a dict kept as its list of entries in insertion order |
| `OrderedDict.Put` | infra.py:59-61 | defines `d[k] = v`: the entry for `k` is replaced where it stands, or appended |
| `OrderedDict.PutKeys` | infra.py:59 | assigning to an existing dict key keeps its position; a new key is appended |
| `OrderedDict.PutGet` | infra.py:59 | after `d[k] = v`, `k` maps to `v` and every other key is unchanged |
| `OrderedDict.PutUnique` | infra.py:59 | assignment never creates a second entry for a key |
| `Rules.AddRow` | infra.py:58-61 | defines the effect of one row: a keyword stored lowercased, a port stored as `int(pattern)` (or `None` where `int` raises), an IP stored verbatim, any other type ignored |
| `Rules.LoadRows` | infra.py:57-62 | defines the row loop: rows are added in order until the first one that raises, which ends the loop |
| `Rules.Load` | infra.py:52-63 | defines `_read_csv`: three empty tables for a missing file, otherwise the rows loaded into empty tables |
| `Rules.ReadCsv` | infra.py:52-63 | the row loop computes `Load`; a missing file gives three empty tables |
| `Rules.LoadStopsAtFirstRaise` | infra.py:55-62 | the first row that raises ends the load, and every earlier row is kept |
| `Rules.LoadIgnoresOtherKinds` | infra.py:59-61 | rows whose type is not keyword, port or ip change nothing |
| `Rules.LoadIpLastWins` | infra.py:61 | an `ip` row stores its pattern verbatim, and the last row for an address gives the label |
| `Rules.LoadIpUnlisted` | infra.py:61 | an address no `ip` row names is not added |
| `Rules.LoadPortLastWins` | infra.py:60 | a `port` row stores `int(pattern)`, and the last row for a port gives the label |
| `Rules.LoadPortUnlisted` | infra.py:60 | a port no `port` row yields is not added |
| `Rules.LoadKeywordLastWins` | infra.py:59 | a `keyword` row stores `pattern.lower()`, and the last row for a keyword gives the label |
| `Rules.LoadKeywordUnlisted` | infra.py:59 | a keyword no row lowercases to is not added |
| `Rules.LoadKeywordOrder` | infra.py:59 | keywords are kept in order of their first row |
| `Rules.LoadKeywordsUnique` | infra.py:59 | no keyword is stored twice |
| `Classifier.IsSubstring` | infra.py:98-106 | defines Python's `k in s` on strings: `k` occurs at some position of `s` |
| `Classifier.FirstMatch` | infra.py:98-100 | returns the first keyword in table order that occurs in the text, and None exactly when none does |
| `Classifier.Classify` | infra.py:93-108 | black exactly when a black IP, port or keyword matches; white exactly when not black and a white IP, keyword or non-443 port matches |
| `Classifier.ClassifyReasonAgrees` | infra.py:93-108 | never both black and white; the reason code agrees with the flags; no match leaves an empty label and reason |
| `Classifier.ClassifyBlackIp` | infra.py:96 | a black IP gives `BL-IP` with its label, whatever the port, host or white rules |
| `Classifier.ClassifyBlackPort` | infra.py:97 | otherwise a black port gives `BL-Port` |
| `Classifier.ClassifyBlackKeyword` | infra.py:98-100 | otherwise the first black keyword in table order occurring in `host.lower()` gives `BL-Key` |
| `Classifier.ClassifyWhiteIp` | infra.py:102-103 | with no black match, a white IP gives `WL-IP` |
| `Classifier.ClassifyWhiteKeyword` | infra.py:104-106 | otherwise the first white keyword occurring in `host.lower()` gives `WL-Key` |
| `Classifier.ClassifyWhitePort` | infra.py:107-108 | otherwise a white port other than 443 gives `WL-Port`, and anything else is unclassified |
| `Classifier.Port443NeverWhitePort` | infra.py:107 | port 443 never yields `WL-Port` |
| `Classifier.BlackIpBeatsWhiteIp` | infra.py:96-102 | an IP in both the black and the white table gives `BL-IP` with the black label, whatever the port and host |
| `Classifier.KeywordMatchIgnoresCase` | infra.py:98-100 | host "MAIL.EXAMPLE.COM" matches black keyword "example" |
| `Classifier.Route` | infra.py:126-132 | defines where a report goes: blacklist alert, normal tab with or without the unregistered tag, or unknown alert |
| `Classifier.RouteOfClassify` | infra.py:126-132 | black goes to the blacklist alert; white goes to the normal tab untagged; unmatched port 443 goes to the normal tab tagged unregistered; everything else goes to the unknown alert |
| `Classifier.Prefix` | infra.py:112 | defines the reason column: `??WEB??` padded to 12 columns for unmatched port-443 traffic, else `(reason)` fitted to 12 columns |
| `Classifier.WebPrefixIffUnregistered` | infra.py:112 | the `??WEB??` column is used exactly for reports tagged unregistered |
| `Classifier.PrefixWidth` | infra.py:112 | the reason column is always 12 columns wide when printable ASCII is narrow |
| `Watcher.LiveIds` | infra.py:80-84 | defines `current_found`: the keys of the ESTABLISHED entries that have a remote address |
| `Watcher.NewIds` | infra.py:80-85 | defines the keys a scan reports: in snapshot order, each tracked key not yet seen, once |
| `Watcher.ProcessName` | infra.py:87-88 | defines the process name: the looked-up name, or "Unknown" when the lookup fails |
| `Watcher.HostName` | infra.py:90-91 | defines the host name: the reverse-DNS name, or "Unknown-Host" when the lookup fails |
| `Watcher.Report` | infra.py:87-132 | defines a report: names looked up with their sentinels, the verdict, the sink and the reason column |
| `Watcher.LiveIdsMembers` | infra.py:80-84 | a key is tracked exactly when an ESTABLISHED entry with a remote address has it |
| `Watcher.NewIdsMembers` | infra.py:80-85 | a scan reports exactly the snapshot's keys that were not tracked before |
| `Watcher.NewIdsDistinct` | infra.py:84-85 | a key repeated within one snapshot is reported once |
| `Watcher.RepeatedSnapshotReportsNothing` | infra.py:85 | scanning the same snapshot again reports nothing |
| `Watcher.NotReportedWhilePresent` | infra.py:85 | a key still present in the next snapshot is not reported again |
| `Watcher.ReappearedIsReportedAgain` | infra.py:85 | a key absent for one cycle and then back is reported again |
| `Watcher.Watcher.constructor` | infra.py:12-14 | both rule files are loaded and nothing is tracked |
| `Watcher.Watcher.LoadConfigs` | infra.py:65-67 | both rule tables are reloaded from their files |
| `Watcher.ReportMeaning` | infra.py:87-132 | a report carries the looked-up names or "Unknown"/"Unknown-Host"; black and white flags, sink and `??WEB??` column follow from the rule tables alone, as `RouteOfClassify` states them |
| `Watcher.Watcher.Announce` | infra.py:87-112 | failed lookups fall back to "Unknown" and "Unknown-Host"; the report carries the verdict, sink and reason column |
| `Watcher.Watcher.Cycle` | infra.py:73-137 | rules reloaded; a failed snapshot changes nothing and reports nothing; otherwise the snapshot's new keys are reported in order and the tracked keys become the snapshot's keys |
| `Watcher.Watcher.Scan` | infra.py:80-134 | each tracked entry's key is collected; each key not yet tracked is reported once and inserted |
| `Watcher.Watcher.Expire` | infra.py:136-137 | every tracked key missing from the snapshot is deleted |
| `Watcher.CycleTwice` | infra.py:74-137 | two cycles over the same snapshot: the second reports nothing |

## Left out

- The tkinter window, tabs, tag styling and `log_to_tab` (infra.py:16-31, 69-71) are not modelled. A report's destination is the `Sink` value. The banners "【！BLACK！】" and "!!UNKNOWN!!" and the timestamp are not modelled.
- The process-name column, the label column, `host[:40]` and the rest of the f-string line (infra.py:115-124) are presentation. Only the reason column (infra.py:112) is modelled.
- `root.after`, `threading.Thread`, `mainloop` and `start` (infra.py:127-132, 140-142) are concurrency and the event loop. They are not modelled.
- `psutil.net_connections`, `psutil.Process(pid).name()` and `socket.gethostbyaddr` are OS and DNS calls. They become inputs.
- `time.sleep` and the endless `while True` are not modelled. `Cycle` is one pass; `CycleTwice` shows two.
- File opening, BOM handling and `csv.DictReader` are library I/O. A rule file is given as the rows read before any reader failure. A row with missing cells (which `DictReader` fills with `None`) is not modelled, and neither is a file whose header lacks a `pattern`, `type` or `comment` column: its first row raises KeyError at infra.py:58, so all three tables stay empty.
- `unicodedata.east_asian_width` and `str.lower` are parameters, not tables.
- PyInt.ParseInt: accepts ASCII digits only. Python's `int()` also accepts other Unicode decimal digits, such as full-width ones.
- The default rule-file paths `"whitelist.csv"` and `"blacklist.csv"` (infra.py:12) are not modelled. The constructor takes both paths as parameters.
- PyInt.ParseInt: the 4300-digit limit is the default value reported by `sys.get_int_max_str_digits()`. The model does not follow a limit changed at run time or through `PYTHONINTMAXSTRDIGITS`.
- The `dns_cache` field is never used by the source, so it is not modelled.
