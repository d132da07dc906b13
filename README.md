# Solaris memory backend of gopsutil, modelled in Dafny

This project models `mem/mem_solaris.go`, the Solaris backend of gopsutil's
memory statistics. `VirtualMemory` asks `/usr/bin/zonename` which zone it runs
in. If the answer is exactly `global`, it reads the total from the
`Memory size: N Megabytes` line that `/usr/sbin/prtconf` prints. Otherwise it
runs `/usr/bin/zonememstat -H -z <zone>` and reads the third column (CAP).
`SwapMemory` always fails with the not-implemented error.

The backend is modelled as pure functions. The machine is a `Host` value with
two total functions: `lookPath` stands for `exec.LookPath` and `command`
stands for `invoke.Command`. Each returns either a result or an error. The
Go library calls the backend depends on are written out in their own modules:

- `common.dfy` (`Common`): Go's `uint64` as a bounded subtype, the errors, and
  `Result` for Go's `(value, error)` pair.
- `strconv.dfy` (`StrConv`): `strconv.ParseUint(s, 10, 64)`. It follows
  Go's loop step by step: the `cutoff` test, then an addition that wraps
  modulo 2^64 and counts a wrapped sum as overflow. It is proved equal to a
  closed-form definition, `ParseUintSpec`.
- `strings.dfy` (`Strings`): `unicode.IsSpace`, `strings.Fields` and
  `strings.TrimSpace`.
- `memory_size.dfy` (`MemorySize`): the expression
  `Memory size: ([\d]+) Megabytes` under `FindAllStringSubmatch(s, -1)`. It is
  written as a scanner: the literal prefix, a maximal run of ASCII digits,
  then the literal suffix.
- `mem_solaris.dfy` (`MemSolaris`): `zoneName`, `globalZoneMemoryCapacity`,
  `nonGlobalZoneMemoryCapacity`, `VirtualMemory` and `SwapMemory`.

The model follows the code as written:

- The zone name is compared without trimming.
- The global path yields megabytes and the non-global path yields
  zonememstat's raw CAP value. No unit conversion is done.
- The empty-CAP-field check is kept, but it is proved unable to fire.

## Model

| member | source | states |
|---|---|---|
| StrConv.ParseUintIsSpec | mem/mem_solaris.go:76 | The left-to-right loop with Go's cutoff and wrap-around overflow tests equals the closed form. Empty input is a syntax error. If the digits before the first non-digit exceed 2^64 − 1, the result is a range error. Otherwise a non-digit is a syntax error. Otherwise the result is the decimal value |
| StrConv.ParseUintAccepts | mem/mem_solaris.go:98 | ParseUint succeeds exactly on non-empty all-digit strings whose value is at most 2^64 − 1, and returns that value. Every other input (a sign, an underscore, a letter, an overflow) fails with a syntax or range error naming the input |
| StrConv.ParseUintRange | mem/mem_solaris.go:76 | The range error happens exactly when the leading digit run overflows, even if a non-digit follows it |
| StrConv.ParseUintOfDigits | mem/mem_solaris.go:76 | A non-empty digit string is never a syntax error: it gives its value, or a range error above 2^64 − 1 |
| StrConv.ParseUint | mem/mem_solaris.go:76 | `strconv.ParseUint(s, 10, 64)`; no contract of its own: see ParseUintIsSpec, ParseUintAccepts, ParseUintRange, ParseUintOfDigits |
| StrConv.ParseDigitsFrom | mem/mem_solaris.go:98 | The digit loop inside `strconv.ParseUint`; no contract of its own: ParseUintIsSpec proves it equal to the closed form |
| Strings.Fields | mem/mem_solaris.go:91 | No field returned by strings.Fields is empty, and no field contains white space |
| Strings.FieldsConcat | mem/mem_solaris.go:91 | Concatenating the fields gives the input with its white space removed |
| Strings.FieldsOfJoinSpace | mem/mem_solaris.go:91 | Fields inverts joining non-empty, space-free words with single spaces |
| Strings.FieldsJoinFields | mem/mem_solaris.go:91 | Rejoining the fields with single spaces and splitting again gives the same fields |
| Strings.TrimSpaceOf | mem/mem_solaris.go:55 | TrimSpace returns the unique middle part with white space on both sides and none at its own ends (used by the corrected zone name) |
| Strings.TrimSpace | mem/mem_solaris.go:55 | `strings.TrimSpace`, used by the corrected zone name; no contract of its own: see TrimSpaceOf |
| MemorySize.FindAllFrom | mem/mem_solaris.go:71 | Every span returned is a match of the pattern at its start, in left-to-right order, and the spans do not overlap |
| MemorySize.FindAll | mem/mem_solaris.go:71 | `FindAllStringSubmatch(s, -1)` for the one pattern; no contract of its own: see FindAllFrom, FindAllFromFinds, MatchCount, SingleOccurrence |
| MemorySize.Group | mem/mem_solaris.go:76 | The capture `match[0][1]`; no contract of its own: see GroupIsDigits |
| MemorySize.MatchesAtIsPattern | mem/mem_solaris.go:58 | The scanner matches at i exactly when some s[i..j] is in the regular language prefix·digit⁺·suffix, and that j is unique. So leftmost-first and greedy choice do not matter |
| MemorySize.NoOverlap | mem/mem_solaris.go:58 | No match can start inside another match |
| MemorySize.FindAllFromFinds | mem/mem_solaris.go:71 | Resuming the search after each match misses no position where the pattern matches, and reports no other position |
| MemorySize.MatchCount | mem/mem_solaris.go:71 | The number of matches FindAll returns equals the number of positions where the pattern occurs |
| MemorySize.SingleOccurrence | mem/mem_solaris.go:71-72 | If the pattern occurs at exactly one position, FindAll returns exactly that one match |
| MemorySize.GroupIsDigits | mem/mem_solaris.go:58 | The capture group of a match is a non-empty run of ASCII digits |
| MemSolaris.Run | mem/mem_solaris.go:61-69 | exec.LookPath followed by invoke.Command, either failure returned as is; no contract of its own: see VirtualMemoryZoneNameFails, VirtualMemoryConsults |
| MemSolaris.ZoneName | mem/mem_solaris.go:44-56 | zonename's output, untouched; no contract of its own: see VirtualMemoryZoneNameFails, RawZoneNameWithNewline |
| MemSolaris.PrtconfCapacity | mem/mem_solaris.go:71-76 | The parsing half of globalZoneMemoryCapacity; no contract of its own: see PrtconfNeedsExactlyOne, PrtconfSingleMatch, PrtconfOneLine, PrtconfExample |
| MemSolaris.GlobalZoneMemoryCapacity | mem/mem_solaris.go:60-77 | Runs prtconf and parses its output; no contract of its own: see the Prtconf lemmas and VirtualMemoryConsults |
| MemSolaris.PrtconfNeedsExactlyOne | mem/mem_solaris.go:71-74 | Zero occurrences and two or more occurrences both give the "Memory size not contained" error. A success implies exactly one occurrence, so the first of several matches is never taken |
| MemSolaris.PrtconfSingleMatch | mem/mem_solaris.go:71-76 | With exactly one occurrence, the capture is non-empty digits. The result is their decimal value, or a range error when that value exceeds 2^64 − 1 (the only possible failure) |
| MemSolaris.PrtconfOneLine | mem/mem_solaris.go:58-76 | A prtconf report whose surrounding text has no match gives the number on its one line of its own, `Memory size: N Megabytes` |
| MemSolaris.PrtconfExample | mem/mem_solaris.go:71-76 | The output `Memory size: 16384 Megabytes` followed by a newline gives 16384 |
| MemSolaris.ZoneMemStatCapacity | mem/mem_solaris.go:90-98 | The parsing half of nonGlobalZoneMemoryCapacity, with its guard as written; no contract of its own: see ZoneMemStatCapField, ZoneMemStatRow |
| MemSolaris.NonGlobalZoneMemoryCapacity | mem/mem_solaris.go:79-99 | Runs `zonememstat -H -z <zone>` and parses its output; no contract of its own: see ZoneMemStatCapField, ZoneMemStatRow, VirtualMemoryConsults |
| MemSolaris.ZoneCapacity | mem/mem_solaris.go:23-35 | The branch on the zone name; no contract of its own: see VirtualMemoryDispatch, VirtualMemoryOnlyTotal |
| MemSolaris.ZoneMemStatCapField | mem/mem_solaris.go:90-98 | Fewer than three fields gives the "Cannot find memory capacity" error. Otherwise the result is ParseUint of field index 2; the empty-field check never matters |
| MemSolaris.ZoneMemStatRow | mem/mem_solaris.go:90-98 | For any zone id, RSS and following columns, with any white-space separators, the result is ParseUint of the CAP column |
| MemSolaris.StatOf | mem/mem_solaris.go:24-37 | A capacity becomes a stat whose Total is that value and whose other fields are zero. An error is passed on with no stat |
| MemSolaris.VirtualMemory | mem/mem_solaris.go:15-38 | no contract of its own: see VirtualMemoryZoneNameFails, VirtualMemoryDispatch, VirtualMemoryConsults, VirtualMemoryOnlyTotal |
| MemSolaris.VirtualMemoryZoneNameFails | mem/mem_solaris.go:18-21 | If the zonename lookup or run fails, VirtualMemory returns exactly that error |
| MemSolaris.VirtualMemoryDispatch | mem/mem_solaris.go:23-35 | The prtconf branch is taken exactly when the raw zone name equals "global". Any other name goes, unchanged, to zonememstat |
| MemSolaris.VirtualMemoryConsults | mem/mem_solaris.go:15-37 | Two hosts that answer alike for zonename, then for the one tool the zone calls for, give the same result. The zone name is passed after `-H -z`. Nothing else is consulted, and nothing at all after zonename fails |
| MemSolaris.VirtualMemoryOnlyTotal | mem/mem_solaris.go:15-37 | A success sets only Total, and it succeeds exactly when zonename and the chosen capacity tool both succeed |
| MemSolaris.SwapMemory | mem/mem_solaris.go:40-42 | Always the not-implemented error, with no stat |
| MemSolaris.ZoneNameTrimmed | mem/mem_solaris.go:44-56 | The corrected zoneName, trimmed of white space; no contract of its own: see RawZoneNameWithNewline, TrimmedZoneDispatch |
| MemSolaris.VirtualMemoryTrimmed | mem/mem_solaris.go:15-38 | VirtualMemory with the corrected zone name; no contract of its own: see RawZoneNameWithNewline, TrimmedZoneDispatch |
| MemSolaris.RawZoneNameWithNewline | mem/mem_solaris.go:44-56 | As written, the zone name "global\n" takes the zonememstat branch with `-z "global\n"`. The trimmed variant takes the prtconf branch |
| MemSolaris.TrimmedZoneDispatch | mem/mem_solaris.go:23-35 | With the zone name trimmed, prtconf is consulted exactly when the name is "global" with any white space around it. Otherwise zonememstat gets the trimmed name |

## Left out

- The `exec.LookPath` and `invoke.Command` calls are modelled as the `Host` parameter. Process spawning, path search, exit status and timeouts are outside the model.
- The value returned next to an error is not modelled. `globalZoneMemoryCapacity` and `nonGlobalZoneMemoryCapacity` return 0 with their own errors and 2^64 − 1 with ParseUint's range error. `Result` keeps only the error, since `VirtualMemory` throws that value away.
- `VirtualMemoryStat` and `SwapMemoryStat` are declared in mem/mem.go, which is not part of this model. The model keeps Total, Available, Used and Free of the first, enough to state that only Total is set. It keeps Total, Used and Free of the second, which is never built. The other fields, including the floating-point UsedPercent, are left out.
- Command output is taken as decoded text (`seq<char>`). Invalid UTF-8, which Go's `strings.Fields` and regexp read as U+FFFD, is not represented.
- `DigitsValue` works on ASCII digits only, the same as Go's `\d` and ParseUint.
- ParseUint's `n1 > maxVal` test is not modelled: it cannot fire when bitSize is 64. The base and bitSize arguments are fixed at 10 and 64, the only values the backend uses.
- The general regular-expression engine is left out. Only this one pattern is modelled, as a scanner.
- Units are not converted: the global path gives megabytes, and the non-global path gives zonememstat's CAP value as printed.
- Concurrency is not modelled; the backend has no shared state.

## Findings

| source | as written | input that shows it | evidently intended | confidence | as-written member | corrected member |
|---|---|---|---|---|---|---|
| mem/mem_solaris.go:55 | `zoneName` returns zonename's output unchanged, and line 23 compares it with `"global"` | zonename printing `global` followed by a newline: `VirtualMemory` runs `zonememstat -H -z "global\n"` instead of prtconf | compare and pass on `strings.TrimSpace` of the output | not executed; medium, because it rests on zonename ending its output with a newline | MemSolaris.RawZoneNameWithNewline | MemSolaris.TrimmedZoneDispatch |
