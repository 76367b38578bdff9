# so1 monitor: a Dafny model

This project models a host-and-container monitor. It has two halves.

**Kernel modules.** Four Linux modules publish JSON under `/proc`:

- `cpu` reports the CPU usage since the previous read, computed from `/proc/stat`.
- `ram` reports total, free and used memory, and the used percentage.
- `sysinfo` reports host memory, CPU usage, a timestamp and one entry per task.
- `continfo` reports host memory, a timestamp and one entry per task. Each entry carries the process's command line, its memory figures, its CPU time and a container-related flag.

**Go daemon.** Every cycle the daemon does the following:

1. It reads the `sysinfo` file, prints a summary and writes these rows:
   - the system row;
   - one row per process, with a CPU percentage once a previous snapshot exists;
   - a histogram of process states.
2. It reads the `continfo` file, prints the container-related entries and updates the container lifecycle table:
   - live containers get `last_seen`;
   - vanished containers get `removed_at`.
3. It counts the deleted containers, then writes the host row and one metric row per stress-test process.
4. It enforces the container caps: at most two "high" stress containers and at most three "low" ones. The surplus is stopped in listing order.

## How it is modelled

- **Modules.** There is one module per source file: `ReadSystem`, `ReadCont`, `InsertSystem`, `InsertCont`, `CleanCont` and `Daemon` (for `main.go`), and `KernelCpu`, `KernelRam`, `KernelSysinfo` and `KernelContinfo`. Helpers shared by several files live in `Common` and `KernelCommon`.
- **Integers.** `unsigned long` and Go's `uint64` are `u64` values. Every unguarded subtraction or addition goes through `Wrap64` (modulo 2^64).
- **Percentages.** Go's `float64` percentages are `real`, stated by their exact formula.
- **State the source changes in place** becomes classes and methods:
  - the kernel modules' `prev_idle`/`prev_total` become `KernelCommon.CpuCounters`;
  - the container lifecycle table becomes `InsertCont.ContainersTable`, a map keyed by `container_id`, which is the table's unique index;
  - the loop state of `main` becomes `Daemon.Monitor`.
- **Loops** become methods with loop invariants, each proved equal to a recursive or comprehension specification function. The properties are then proved about those functions.
- **The outside world** is passed in as parameters:
  - files become read outcomes;
  - `sscanf` becomes a parser function;
  - a failing SQL transaction becomes a boolean;
  - `docker ps` output becomes a listing outcome;
  - `docker stop` failures become a set of ids;
  - the clock becomes `sec`/`nsec`.

Where the intended behaviour and the code disagree, the model follows the code, with one exception listed under "## Findings":

- A container id that reappears after removal only gets a new `last_seen`. Its row keeps `removed_at` and no second row is created (`InsertCont.UpsertedReappear`).
- A snapshot with no live container ids leaves the lifecycle table untouched. It closes nothing (`InsertCont.ContainersTable.UpsertContainersFromSnapshot`).
- The `ram` module computes `uso = total - libre` without a guard, so it wraps modulo 2^64. The `sysinfo` and `continfo` modules saturate at 0.
- The `cpu` module terminates its buffer only at index 255, not after the bytes read (`KernelCpu.StatTextShortRead`).
- `sysinfo` counts `total_procs` in a separate pass over the process list. Two passes can see different process lists, so the count need not equal the number of entries.

## Model

| member | source | states |
|---|---|---|
| Common.ContainsIff | Daemon/insert_cont.go:116-120 | substring search succeeds exactly when the pattern occurs at some offset |
| Common.LowerForgetsCase | Daemon/insert_cont.go:116-120 | lower-casing forgets any earlier upper- or lower-casing, so the case-insensitive search does not depend on the case of its input |
| Common.RatePctPositive | Daemon/insert_system.go:205-209 | a rate computed from a positive counter delta is strictly positive |
| Common.CStringAt | kernel/cpu_so1_201801521.c:40-46 | the C string of a buffer with its first NUL at n is exactly the first n bytes |
| ReadSystem.ReadSysinfo | Daemon/readsystem.go:36-56 | any read or parse failure is an error; a parsed document is returned with RawJSONPresent set, and only then |
| ReadSystem.CpuDataAvailable | Daemon/readsystem.go:76-82 | the scan answers true iff some process has non-zero utime or stime |
| ReadSystem.SortDesc | Daemon/readsystem.go:88-92 | the copy ends sorted by utime+stime, largest first, and is a permutation of what it held |
| ReadSystem.PrefixDominates | Daemon/readsystem.go:94-97 | in a list sorted largest first, every element of a prefix is at least every element after it |
| ReadSystem.TopByCpu | Daemon/readsystem.go:84-97 | the top list has min(10, n) entries, is sorted by CPU ticks descending, is drawn from the processes, and no process left out has more ticks than one taken |
| ReadSystem.PrintSysInfo | Daemon/readsystem.go:58-126 | an empty list shows nothing else; the top list appears iff CPU data is available; the listing is the first min(50, n) processes in original order; the overflow note appears iff n > 50 |
| ReadCont.ReadContInfo | Daemon/readcont.go:33-46 | a read or parse failure is an error and yields no snapshot; success returns the parsed snapshot unchanged |
| ReadCont.RelatedEntriesCounts | Daemon/readcont.go:59-64 | each container-related entry survives as often as it occurs and no other entry survives |
| ReadCont.RelatedEntriesExact | Daemon/readcont.go:59-64 | an entry is counted iff it is in the snapshot with container_related "yes" |
| ReadCont.PrintContainers | Daemon/readcont.go:48-84 | the cards are the container-related entries numbered 1..count in snapshot order; "none detected" iff count is 0; otherwise the total equals count |
| InsertSystem.SystemMetricsRow | Daemon/insert_system.go:67-79 | available is NULL unless AvailableKB > 0, and then its int64 value; ram_used is the int64 conversion of RamUsedKB, or of TotalRAMKB-FreeRAMKB when that is 0 and the total is positive |
| InsertSystem.RamUsedFallback | Daemon/insert_system.go:68-71 | with a zero RamUsedKB and free at most total, ram_used is total - free, between 0 and the total |
| InsertSystem.RamUsedWrapsWhenFreeExceedsTotal | Daemon/insert_system.go:68-71 | when free exceeds total, the unsigned subtraction and int64 conversion give the negative difference |
| InsertSystem.PrevTicksKeys | Daemon/insert_system.go:190-193 | the previous-ticks map holds exactly the pids listed in the previous snapshot |
| InsertSystem.PrevTicksLastWins | Daemon/insert_system.go:190-193 | a pid listed twice takes the ticks of its last entry |
| InsertSystem.ProcRatesKeys | Daemon/insert_system.go:195-204 | a pid gets a percentage iff it was in the previous snapshot and its utime+stime strictly increased |
| InsertSystem.ProcRatesValues | Daemon/insert_system.go:205-209 | each percentage is ((Δticks/hz)/(Δms/1000))·100/numCPUs for a current entry of that pid, and is positive |
| InsertSystem.ProcCpuPctMembership | Daemon/insert_system.go:190-209 | with valid guards, a pid is in the result iff some current entry of it advanced past the previous ticks; its value is positive |
| InsertSystem.ProcCpuPctGuards | Daemon/insert_system.go:178-188 | numCPUs ≤ 0 or a timestamp that did not advance gives an empty map |
| InsertSystem.ProcCpuPctExample | Daemon/insert_system.go:205-209 | 70 ticks at 100 Hz over 10 s on one CPU gives 7% |
| InsertSystem.BuildProcCpuPct | Daemon/insert_system.go:175-213 | the two loops build exactly the specified percentage map |
| InsertSystem.ProcessRowsOnePerProcess | Daemon/insert_system.go:144-151 | one row per process, in order; cpu_pct is NULL when the map is absent or lacks the pid |
| InsertSystem.InsertProcessMetricsBulk | Daemon/insert_system.go:116-173 | the rows written are exactly one row per process, with the cpu_pct lookup |
| InsertSystem.StateKey | Daemon/insert_system.go:244-249 | the state key is one character: "?" for an empty state, else the first character |
| InsertSystem.HistogramKeys | Daemon/insert_system.go:242-251 | the histogram has one key per distinct state key present, each with count ≥ 1 |
| InsertSystem.HistogramTotal | Daemon/insert_system.go:242-251 | the counts sum to the number of processes |
| InsertSystem.HistogramCount | Daemon/insert_system.go:242-251 | each count is the number of processes with that state key, and a key no process has is absent |
| InsertSystem.CountSumIncrement | Daemon/insert_system.go:250 | one `counts[state]++` raises the total count by one |
| InsertSystem.InsertProcessStateSummary | Daemon/insert_system.go:236-287 | the counts written are the state histogram of the processes: each key's count is the number of processes with that state key, and a key no process has gets no row; an empty list writes nothing |
| InsertCont.ContIdsExact | Daemon/insert_cont.go:36-46 | the live id set is exactly the non-empty ids of container-related processes, and never contains "" |
| InsertCont.ContIdsBound | Daemon/insert_cont.go:36-46 | there are at most as many distinct ids as counted processes |
| InsertCont.ContIdsSameContainer | Daemon/insert_cont.go:36-46 | two processes of one container count as one container |
| InsertCont.LiveContainerIds | Daemon/insert_cont.go:36-46 | the loop collects exactly the live id set |
| InsertCont.InsertContainerHostMetrics | Daemon/insert_cont.go:35-76 | total_containers is the number of distinct live ids; the deleted count and the memory figures are written as given |
| InsertCont.AddI64 | Daemon/insert_cont.go:399-421 | int64 addition agrees with exact addition when the sum is in range |
| InsertCont.SubI64 | Daemon/insert_cont.go:423-433 | int64 subtraction agrees with exact subtraction when the difference is in range |
| InsertCont.CpuByContainer | Daemon/insert_cont.go:399-421 | per-id CPU sums are kept for exactly the live ids |
| InsertCont.UncountedAddsNothing | Daemon/insert_cont.go:399-421 | a process that is not container-related, or has no id, contributes nothing |
| InsertCont.PairSum | Daemon/insert_cont.go:399-421 | two processes of one container contribute the sum of their CPU times |
| InsertCont.ContainerCpuPctGuards | Daemon/insert_cont.go:387-392 | numCPUs ≤ 0 or a timestamp that did not advance gives an empty map |
| InsertCont.ContainerCpuPctKeys | Daemon/insert_cont.go:387-436 | with valid guards, an id is in the result iff it has sums in both snapshots and the current sum is larger; its value is positive unless the int64 difference wraps |
| InsertCont.ContainerCpuPctTimeWrap | Daemon/insert_cont.go:390-397 | a time delta past the int64 range wraps negative and gives an empty map |
| InsertCont.ContainerCpuPctExample | Daemon/insert_cont.go:423-433 | two processes each gaining 1 s of CPU over 1 s on 2 CPUs give 100% |
| InsertCont.RatesForStep | Daemon/insert_cont.go:423-433 | one loop step adds the rate of the id just visited, if any |
| InsertCont.SumByContainer | Daemon/insert_cont.go:399-421 | the summing loop builds exactly the per-id CPU sums |
| InsertCont.BuildContainerCpuPct | Daemon/insert_cont.go:387-436 | guards, sums and rate loop build exactly the specified percentage map |
| InsertCont.ClassifyContainerType | Daemon/insert_cont.go:102-114 | the type is one of HIGH_CPU, HIGH_RAM, LOW, UNKNOWN |
| InsertCont.ClassifyIgnoresCase | Daemon/insert_cont.go:102-120 | classification does not change when the id is upper- or lower-cased |
| InsertCont.ClassifyStressIds | Daemon/insert_cont.go:102-114 | the three stress ids classify as HIGH_CPU, HIGH_RAM and LOW |
| InsertCont.ClassifyFirstMatchWins | Daemon/insert_cont.go:102-114 | an id matching both "low" and "high-ram" is HIGH_RAM: the earlier rule wins |
| InsertCont.NormalizeStressContainerId | Daemon/insert_cont.go:340-352 | the id is one of the three stress ids: high-cpu iff --cpu or stress-ng-cpu, high-ram iff not that and --vm or stress-ng-vm, low otherwise |
| InsertCont.MetricRowsExact | Daemon/insert_cont.go:286-330 | a row is written for exactly the stress processes with a non-empty cmdline, and every row is the row of one of them |
| InsertCont.InsertedEntriesCounts | Daemon/insert_cont.go:286-301 | the processes that get a row are the stress processes with a non-empty cmdline, each as often as it occurs in the snapshot |
| InsertCont.MetricRowsInOrder | Daemon/insert_cont.go:286-330 | the k-th row is the row of the k-th process that gets one, so there is one row per such process, in snapshot order |
| InsertCont.MetricRowIds | Daemon/insert_cont.go:286-330 | every row carries one of the three normalised stress ids |
| InsertCont.InsertContainerMetricsBulk | Daemon/insert_cont.go:255-338 | the rows written are exactly the specified metric rows: one per stress process with a non-empty cmdline, in snapshot order |
| InsertCont.Upserted | Daemon/insert_cont.go:123-220 | after the update the table holds the old ids plus the live ids: one row per id |
| InsertCont.UpsertedLive | Daemon/insert_cont.go:147-178 | a live id gets last_seen = ts; an existing row keeps everything else, including removed_at; a new id gets first_seen = last_seen = ts and its classified type |
| InsertCont.UpsertedAbsent | Daemon/insert_cont.go:181-208 | an id that is not live keeps its row except removed_at, which is set to ts only if it was NULL |
| InsertCont.UpsertedDeleted | Daemon/insert_cont.go:181-208 | the removed ids grow by exactly the ids that are not live, so their count never decreases |
| InsertCont.UpsertedIdempotent | Daemon/insert_cont.go:123-220 | applying the same snapshot twice equals applying it once |
| InsertCont.UpsertedReappear | Daemon/insert_cont.go:147-152 | a container that vanishes and reappears keeps its removed_at and its first_seen |
| InsertCont.SeenSomeStep | Daemon/insert_cont.go:147-178 | one upsert step extends the updated set by the id just handled |
| InsertCont.ClosedSomeStep | Daemon/insert_cont.go:181-208 | one close step extends the closed set by the id just handled |
| InsertCont.ClosedSomeAll | Daemon/insert_cont.go:181-208 | closing every open id that is not live completes the update |
| InsertCont.OpenAbsent | Daemon/insert_cont.go:181-208 | the rows the close loop selects are the open rows whose id is not live |
| InsertCont.UpsertLive | Daemon/insert_cont.go:147-178 | the upsert loop produces exactly the live-id part of the update |
| InsertCont.CloseAbsent | Daemon/insert_cont.go:181-208 | the close loop completes the update |
| InsertCont.ContainersTable.constructor | Daemon/insert_cont.go:78-100 | the table starts empty |
| InsertCont.ContainersTable.UpsertContainersFromSnapshot | Daemon/insert_cont.go:123-220 | no live id, or a failed transaction, leaves the table unchanged; otherwise it commits the whole update; an error is reported iff the transaction failed |
| CleanCont.WordLen | Daemon/clean_cont.go:65 | a word ends at the first whitespace character |
| CleanCont.FieldsAreWords | Daemon/clean_cont.go:65 | every field is non-empty and holds no whitespace |
| CleanCont.FieldsOfJoinWords | Daemon/clean_cont.go:65 | splitting words joined by single spaces gives the words back |
| CleanCont.LinesHaveNoNewline | Daemon/clean_cont.go:62-64 | no scanned line contains a newline |
| CleanCont.ParseLine | Daemon/clean_cont.go:65-80 | a line with fewer than two fields is skipped; the id is field 0, the name field 1, the image field 2 or "" |
| CleanCont.ParseLineRoundTrip | Daemon/clean_cont.go:65-80 | the line "id name image" parses back to the same container |
| CleanCont.PoolOf | Daemon/clean_cont.go:21-26 | a name's pool is low, high-cpu or high-ram exactly when it has that prefix |
| CleanCont.PrefixesExclusive | Daemon/clean_cont.go:82-91 | no name has two of the prefixes, so the order of the switch does not matter |
| CleanCont.ParseListingPools | Daemon/clean_cont.go:62-92 | each pool is exactly the parsed containers with its prefix, in listing order; other names are dropped |
| CleanCont.InPoolPrefix | Daemon/clean_cont.go:82-91 | every container in a pool was listed and has that pool's prefix |
| CleanCont.ListStressContainers | Daemon/clean_cont.go:51-98 | a failed listing is an error; otherwise the scan builds exactly the three pools |
| CleanCont.Tagged | Daemon/clean_cont.go:127-166 | each pool member is tagged with its stop reason, in order |
| CleanCont.Executed | Daemon/clean_cont.go:100-107 | one stop per planned target, in order, succeeding iff the id is not failing |
| CleanCont.HighTargetsCount | Daemon/clean_cont.go:127-144 | the high pass stops exactly max(0, high - 2) containers, CPU pool first and then RAM, in listing order, and none when within the cap |
| CleanCont.LowTargetsCount | Daemon/clean_cont.go:156-166 | the low pass stops exactly max(0, lows - 3), the first ones in listing order, and none when within the cap |
| CleanCont.HighTargetsExample | Daemon/clean_cont.go:127-144 | three CPU and two RAM containers: the three CPU ones are stopped |
| CleanCont.HighTargetsSpill | Daemon/clean_cont.go:127-144 | one CPU and three RAM containers: the CPU one and then the first RAM one are stopped |
| CleanCont.StopContainer | Daemon/clean_cont.go:100-107 | a stop is issued; its failure is only recorded |
| CleanCont.StopSurplus | Daemon/clean_cont.go:127-144 | the pass stops min(toKill, pool) containers in order, and a failed stop still decrements toKill |
| CleanCont.HighPassSplit | Daemon/clean_cont.go:127-144 | the CPU pass followed by the RAM pass stops the first toKill of the two pools joined |
| CleanCont.ExecutedAppend | Daemon/clean_cont.go:109-172 | issuing two plans in turn issues their concatenation |
| CleanCont.EnforceRules | Daemon/clean_cont.go:109-172 | the stops issued are the high pass on the first listing, then the low pass on the second; nothing if the first listing fails, no low stops if the second fails |
| Daemon.GetTotalDeletedContainers | Daemon/main.go:25-32 | the count is the number of rows with a removed_at; a failing query is an error |
| Daemon.DeletedCountMonotone | Daemon/main.go:25-32 | the deletion count never decreases across a lifecycle update, committed or not |
| Daemon.ProcPctInput | Daemon/main.go:175-181 | process percentages are computed iff a previous snapshot exists |
| Daemon.ContPctInput | Daemon/main.go:220-225 | container percentages are computed iff a previous snapshot exists |
| Daemon.FirstCycleHasNoProcPct | Daemon/main.go:175-181 | without a previous snapshot every process row has a NULL cpu_pct |
| Daemon.FirstCycleHasZeroContPct | Daemon/main.go:220-227 | without a previous snapshot every container metric row has 0% |
| Daemon.Monitor.constructor | Daemon/main.go:147-154 | the loop starts with no previous snapshot, the runtime's CPU count and an empty lifecycle table |
| Daemon.Monitor.SystemPass | Daemon/main.go:162-193 | a parsed read writes the system row, the process rows and the histogram, then stores the snapshot; a failed read changes nothing; the container state is untouched |
| Daemon.Monitor.ContainerPass | Daemon/main.go:196-234 | a parsed read upserts, then counts deletions (0 on error), then writes the host and metric rows, then stores the snapshot; a failed read changes nothing; the sysinfo state is untouched |
| Daemon.Monitor.Cycle | Daemon/main.go:156-242 | the two halves run independently of each other's outcome, and the caps are enforced every cycle |
| KernelCommon.UsageFromDelta | kernel/cpu_so1_201801521.c:48-59 | a zero total delta gives 0 |
| KernelCommon.UsageWithoutWrap | kernel/cpu_so1_201801521.c:48-59 | without overflow, usage is (1000·(Δtotal-Δidle)/Δtotal + 5)/10 |
| KernelCommon.UsageRounding | kernel/cpu_so1_201801521.c:48-59 | without overflow, usage is the busy share rounded half up to a whole percent, at most 100 |
| KernelCommon.RoundHalfUp | kernel/cpu_so1_201801521.c:57 | the integer formula rounds the busy fraction to the nearest percent |
| KernelCommon.UsageExamples | kernel/cpu_so1_201801521.c:48-59 | 1/3 busy reads 33, 2/3 reads 67, 1/8 reads 13 |
| KernelCommon.UsageIdleAheadWraps | kernel/cpu_so1_201801521.c:48-59 | an idle delta larger than the total delta wraps the unsigned arithmetic |
| KernelCommon.CpuCounters.constructor | kernel/cpu_so1_201801521.c:21-22 | both counters start at 0 |
| KernelCommon.CpuCounters.Advance | kernel/cpu_so1_201801521.c:48-61 | usage is computed against the previous counters, which become idle+iowait and the 8-field total |
| KernelCommon.UsageBetweenSamples | kernel/sysinfo_so1_201801521.c:62-74 | between two advancing samples, usage is the rounded busy share of the interval, at most 100 |
| KernelCommon.SampleDeltas | kernel/sysinfo_so1_201801521.c:64-67 | the deltas of two advancing samples need no wrap-around |
| KernelCommon.PercentOf | kernel/continfo_so1_201801521.c:136-137 | a zero total gives 0 |
| KernelCommon.PercentOfPart | kernel/ram_so1_201801521.c:32-36 | with part ≤ total and no overflow, the percentage is part·100/total, at most 100 |
| KernelCommon.KbFromUnits | kernel/ram_so1_201801521.c:27-28 | without overflow, KiB = count·unit/1024 |
| KernelCommon.KbFromPages | kernel/continfo_so1_201801521.c:128-132 | a page count in 4 KiB pages is 4 KiB per page |
| KernelCommon.TsMsMonotone | kernel/sysinfo_so1_201801521.c:179-181 | ts_ms = sec·1000 + nsec/1000000, and a later clock never gives a smaller ts_ms |
| KernelCommon.Keys | kernel/ram_so1_201801521.c:38-43 | the keys of a JSON object, in order |
| KernelCommon.InterleavedShape | kernel/sysinfo_so1_201801521.c:241-244 | n entries give 2n-1 chunks: the entries at even positions and a separator between each pair, none before the first |
| KernelCommon.EmitArray | kernel/continfo_so1_201801521.c:142-145 | the first-flag loop emits exactly the interleaved chunks |
| KernelCpu.ReadCount | kernel/cpu_so1_201801521.c:40 | at most 255 bytes are read |
| KernelCpu.StatBuffer | kernel/cpu_so1_201801521.c:40-41 | the buffer holds 256 bytes and always ends in NUL |
| KernelCpu.StatTextFull | kernel/cpu_so1_201801521.c:40-45 | a full read parses exactly the first 255 bytes |
| KernelCpu.StatTextShortRead | kernel/cpu_so1_201801521.c:40-45 | after a short read the parsed text runs on into stale bytes up to the first NUL |
| KernelCpu.ReadIntoBuffer | kernel/cpu_so1_201801521.c:26-41 | the stack buffer after the read and terminator is the specified buffer |
| KernelCpu.GetCpuUsage | kernel/cpu_so1_201801521.c:24-65 | an open or parse failure gives 0 and keeps the counters; a parsed sample gives the rounded usage and replaces them |
| KernelCpu.CpuShow | kernel/cpu_so1_201801521.c:67-78 | the object has exactly one field, porcentajeUso, holding that usage |
| KernelRam.RamShow | kernel/ram_so1_201801521.c:19-46 | total and free in KiB; uso = total - libre modulo 2^64; 0% when the total is 0 |
| KernelRam.RamFields | kernel/ram_so1_201801521.c:38-43 | the fields are total, libre, uso, porcentaje, in that order |
| KernelRam.KbOrdered | kernel/ram_so1_201801521.c:27-28 | converting less free memory gives a smaller KiB figure, without overflow |
| KernelRam.RamConsistent | kernel/ram_so1_201801521.c:27-36 | with free ≤ total, used + free = total and the percentage is used·100/total, at most 100 |
| KernelRam.RamExample | kernel/ram_so1_201801521.c:27-36 | one used 4 KiB page reads 100%; half-used memory reads 50% |
| KernelSysinfo.ReadText | kernel/sysinfo_so1_201801521.c:52-59 | a read yields text iff the file opened and is non-empty; the text is a prefix of at most the limit |
| KernelSysinfo.ReadTextExact | kernel/sysinfo_so1_201801521.c:52-59 | a NUL-free file yields exactly its first min(size, limit) bytes |
| KernelSysinfo.GetCpuUsage | kernel/sysinfo_so1_201801521.c:29-80 | an allocation, open, read or parse failure gives 0 and keeps the counters; a parsed sample gives the rounded usage and replaces them |
| KernelSysinfo.StrsepPieces | kernel/sysinfo_so1_201801521.c:113-115 | splitting on newlines always yields at least one piece |
| KernelSysinfo.StrsepRoundTrip | kernel/sysinfo_so1_201801521.c:113-115 | the pieces joined by newlines give the text back, and none contains a newline |
| KernelSysinfo.LastMatchWins | kernel/sysinfo_so1_201801521.c:115-124 | a figure takes the value of the last line that sets it |
| KernelSysinfo.NoMatchZero | kernel/sysinfo_so1_201801521.c:90-92 | a figure no line sets stays 0 |
| KernelSysinfo.Strsep | kernel/sysinfo_so1_201801521.c:115 | one strsep call takes the first piece and leaves the rest |
| KernelSysinfo.ScanLinesStep | kernel/sysinfo_so1_201801521.c:115-124 | scanning one more line applies that line's update |
| KernelSysinfo.ScanLine | kernel/sysinfo_so1_201801521.c:116-123 | a MemTotal, MemFree or MemAvailable line overwrites its own figure only |
| KernelSysinfo.ScanPieces | kernel/sysinfo_so1_201801521.c:113-124 | the strsep loop computes the line scan of all pieces |
| KernelSysinfo.GetMeminfoKb | kernel/sysinfo_so1_201801521.c:83-127 | the figures are 0 on any failure and otherwise the line scan of the file |
| KernelSysinfo.AvailableOrFree | kernel/sysinfo_so1_201801521.c:170-172 | available falls back to free when 0 |
| KernelSysinfo.UsedRam | kernel/sysinfo_so1_201801521.c:173 | used = total - available, saturating at 0 and never above the total |
| KernelSysinfo.TaskStateChar | kernel/sysinfo_so1_201801521.c:130-153 | Z iff zombie, X iff dead; otherwise R for 0, then S, D, T, t by the first bit set, else ? |
| KernelSysinfo.PagesToKb | kernel/sysinfo_so1_201801521.c:231-233 | without overflow, KiB = pages·4 |
| KernelSysinfo.PagesToKbAgrees | kernel/sysinfo_so1_201801521.c:231-233 | pages·(PAGE_SIZE/1024) equals pages·PAGE_SIZE/1024 |
| KernelSysinfo.ProcEntryOf | kernel/sysinfo_so1_201801521.c:205-248 | a task without mm has rss and vmsize 0; otherwise both are their page counts in KiB; the state is task_state_char; the other fields are copied |
| KernelSysinfo.ProcEntries | kernel/sysinfo_so1_201801521.c:204-249 | one entry per task, in task order |
| KernelSysinfo.CountTasks | kernel/sysinfo_so1_201801521.c:184-188 | the first pass counts the processes |
| KernelSysinfo.EmitProcesses | kernel/sysinfo_so1_201801521.c:203-249 | the process array is the entries separated by "    ," |
| KernelSysinfo.MemorySection | kernel/sysinfo_so1_201801521.c:168-173 | the memory figures are the meminfo scan, with the fallback and the saturating used |
| KernelSysinfo.SysinfoShow | kernel/sysinfo_so1_201801521.c:157-257 | the document holds the memory figures, the CPU usage (0 on failure), ts_ms, the first pass's count and the second pass's entries |
| KernelContinfo.Sanitize | kernel/continfo_so1_201801521.c:56-61 | every NUL becomes a space and nothing else changes |
| KernelContinfo.CmdlineLen | kernel/continfo_so1_201801521.c:49-55 | the copy is min(arg_end-arg_start, bufsize-1) bytes, bounded by what is readable |
| KernelContinfo.ReadTaskCmdline | kernel/continfo_so1_201801521.c:33-74 | no task or no mm: -1 and the buffer untouched; an empty read: -1 with buf[0] = NUL; otherwise the sanitised bytes, a NUL after them, and the rest of the buffer unchanged |
| KernelContinfo.CmdlineText | kernel/continfo_so1_201801521.c:115-116 | the command line is NUL-free and shorter than the buffer |
| KernelContinfo.BufferHoldsCmdline | kernel/continfo_so1_201801521.c:115-116 | the C string left in the buffer is the sanitised command line, or "" on failure |
| KernelContinfo.TaskCmdline | kernel/continfo_so1_201801521.c:107-116 | reading into the stack buffer leaves the specified buffer and command line |
| KernelContinfo.ContainerCheckIgnoresStaleBytes | kernel/continfo_so1_201801521.c:118-124 | the corrected marker test does not depend on what the buffer held before |
| KernelContinfo.AsWrittenCoversCmdline | kernel/continfo_so1_201801521.c:118-124 | whatever the corrected marker test flags, the marker test as written flags too |
| KernelContinfo.StaleMarkerMisclassifies | kernel/continfo_so1_201801521.c:118-124 | the marker test as written flags a `sleep 5` task read after a dockerd task; the corrected marker test does not |
| KernelContinfo.UsedRamKb | kernel/continfo_so1_201801521.c:89 | used = total - free, saturating at 0 and never above the total |
| KernelContinfo.RssKb | kernel/continfo_so1_201801521.c:126-134 | rss stays 0 unless the signed page count is positive, and is then 4 KiB per page |
| KernelContinfo.ContEntryOf | kernel/continfo_so1_201801521.c:106-165 | related is "yes" iff the command line names a container runtime, else "no"; estado is "U"; no mm gives zeros; with an mm, vsz_kb is total_vm pages in KiB (4 per page without overflow) and rss_kb is RssKb; mem_percent is 0 when total_kb is 0, and rss_kb * 100 / total_kb when that product fits in 64 bits; cpu_time_ns = utime + stime modulo 2^64 |
| KernelContinfo.ContEntries | kernel/continfo_so1_201801521.c:106-166 | one entry per task, in task order |
| KernelContinfo.ContinfoShow | kernel/continfo_so1_201801521.c:78-174 | the header holds the KiB totals, the saturating used figure and ts_ms; the array is the entries separated by ",\n", each flagged by the corrected marker test |

## Findings

| source | as written | input that shows it | evidently intended | confidence | as-written member | corrected member |
|---|---|---|---|---|---|---|
| kernel/continfo_so1_201801521.c:118-124 | `strnstr(cmdline, marker, sizeof(cmdline))` compares every window of the whole 1024-byte buffer and does not stop at the NUL that ends the command line. The stack buffer is reused from one process to the next, and a read terminates it only after the bytes read. So a short command line leaves the previous process's bytes behind its NUL, and those bytes are searched too | a process whose arguments are `sleep`, NUL, `5`, NUL, read right after a process whose command line was `/usr/bin/dockerd` | flag a process only when its own command line names a container runtime | medium (depends on the compiler reusing the stack slot); not executed | KernelContinfo.ContainerRelatedAsWritten, KernelContinfo.StaleMarkerMisclassifies | KernelContinfo.IsContainerCmdline, KernelContinfo.ContainerCheckIgnoresStaleBytes |

## Left out

- JSON decoding (`json.Unmarshal`), `sscanf` and `seq_printf` formatting are not modelled. Reads arrive already parsed, and the `/proc/stat` and meminfo parses are parameter functions.
- Console printing is not modelled. `PrintSysInfo` and `PrintContainers` return what they select instead.
- SQL is not modelled: table creation, prepared statements, `LastInsertId`, and insert errors other than the lifecycle transaction's.
- The bulk inserts are always modelled as committing. A failed bulk transaction only drops that batch, and nothing else reads the batch.
- The shell-outs to docker and the Grafana and module scripts are inputs: the listing outcome and the set of failing stops.
- `ejemplo.go` is not called from `main`, and the generated `sysinfo_so1_201801521.mod.c` holds no logic. Neither is modelled.
- The signal goroutine, `time.Sleep` and `time.Now` are not modelled.
- The kernel APIs are inputs: `filp_open`, `kernel_read`, `si_meminfo`, `get_task_mm`, `access_process_vm`, `task_cputime_adjusted`, `ktime_get_real_ts64` and the process list. `access_process_vm` is modelled as reading a prefix of the argument area.
- Concurrency is not modelled: RCU, the process list changing during a read, and the static counters being shared between concurrent readers of one `/proc` file.
- Go map iteration order is not modelled. Maps and sets stand for the Go maps, so no result depends on that order.
- `PAGE_SIZE` is fixed at 4096.
- InsertSystem.BuildProcCpuPct requires hz ≠ 0.0. The daemon passes the constant 100.0, and the model uses exact real division, not IEEE float64 rounding. The same holds for InsertCont.BuildContainerCpuPct and every percentage over `real`.
- InsertCont.ClassifyContainerType lower-cases ASCII letters only. Go's `strings.ToLower` also folds other Unicode letters.
- CleanCont.Fields treats the characters as already decoded. It splits on the characters `unicode.IsSpace` accepts, but Go's UTF-8 decoding of invalid bytes is not modelled.
- CleanCont.ListStressContainers does not model `bufio.Scanner`'s 64 KiB token limit. Over that limit the scan stops with an error.
- InsertSystem.StateKey takes the first character of the state, where Go's `state[:1]` takes the first byte. The kernel writes a single ASCII letter, and on ASCII the two agree.
- KernelContinfo.ContinfoShow flags each entry with the corrected marker test, not the code's search of the whole reused buffer (see "## Findings"). It still threads the reused buffer from task to task, and ContainerCheckIgnoresStaleBytes shows that the buffer's leftover bytes cannot change the document.
- KernelSysinfo.SysinfoShow takes the two passes over the process list as two separate inputs. It does not relate them.
