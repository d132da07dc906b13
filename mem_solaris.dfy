/** The Solaris backend of the memory statistics: VirtualMemory reads the
    zone name, and in the global zone parses the memory size printed by
    prtconf, elsewhere the CAP column printed by zonememstat for that zone.
    SwapMemory is not supported. */
module MemSolaris {
  import opened Common
  import opened StrConv
  import opened Strings
  import opened MemorySize

  const ZoneNamePath: string := "/usr/bin/zonename"
  const PrtconfPath: string := "/usr/sbin/prtconf"
  const ZoneMemStatPath: string := "/usr/bin/zonememstat"
  const GlobalZone: string := "global"

  /** zonememstat's columns: Zone ID, RSS, CAP, NOVER, POUT, SWAP%. */
  const CapOffset: nat := 2

  /** The machine the backend runs on, as the two calls that reach it:
      exec.LookPath resolves a tool's path (or fails), and invoke.Command
      runs the resolved path with arguments and returns its standard output
      (or fails). */
  datatype Host = Host(
    lookPath: string -> Result<string>,
    command: (string, seq<string>) -> Result<string>)

  /** The fields of VirtualMemoryStat this model keeps. */
  datatype VirtualMemoryStat = VirtualMemoryStat(total: uint64, available: uint64, used: uint64, free: uint64)

  /** The fields of SwapMemoryStat this model keeps. */
  datatype SwapMemoryStat = SwapMemoryStat(total: uint64, used: uint64, free: uint64)

  /** A freshly allocated &VirtualMemoryStat{}: every field zero. */
  const EmptyStat: VirtualMemoryStat := VirtualMemoryStat(0, 0, 0, 0)

  /** Resolve a tool with exec.LookPath, then run it; either failure is returned as is. */
  function Run(h: Host, path: string, args: seq<string>): Result<string> {
    match h.lookPath(path)
    case Err(e) => Err(e)
    case Ok(resolved) => h.command(resolved, args)
  }

  /** zoneName: the output of /usr/bin/zonename, untouched. */
  function ZoneName(h: Host): Result<string> {
    Run(h, ZoneNamePath, [])
  }

  /** The parsing half of globalZoneMemoryCapacity: exactly one match of the
      pattern, whose digits are converted by ParseUint. */
  function PrtconfCapacity(out: string): Result<uint64> {
    var matches := FindAll(out);
    if |matches| != 1 then Err(NoMemorySize) else ParseUint(Group(out, matches[0]))
  }

  function GlobalZoneMemoryCapacity(h: Host): Result<uint64> {
    match Run(h, PrtconfPath, [])
    case Err(e) => Err(e)
    case Ok(out) => PrtconfCapacity(out)
  }

  /** The parsing half of nonGlobalZoneMemoryCapacity, with its guard as written. */
  function ZoneMemStatCapacity(out: string): Result<uint64> {
    var fields := Fields(out);
    if |fields| < 3 || fields[CapOffset] == "" then Err(NoCapacityField)
    else ParseUint(fields[CapOffset])
  }

  function NonGlobalZoneMemoryCapacity(h: Host, zoneName: string): Result<uint64> {
    match Run(h, ZoneMemStatPath, ["-H", "-z", zoneName])
    case Err(e) => Err(e)
    case Ok(out) => ZoneMemStatCapacity(out)
  }

  /** The capacity tool VirtualMemory consults for a zone name. */
  function ZoneCapacity(h: Host, zone: string): Result<uint64> {
    if zone == GlobalZone then GlobalZoneMemoryCapacity(h) else NonGlobalZoneMemoryCapacity(h, zone)
  }

  /** A capacity as VirtualMemory returns it: in Total of a zeroed stat, or the error with no stat. */
  function StatOf(cap: Result<uint64>): (r: Result<VirtualMemoryStat>)
    ensures r.Ok? <==> cap.Ok?
    ensures r.Err? ==> r.error == cap.error
    ensures r.Ok? ==> r.value.total == cap.value && r.value.available == 0 && r.value.used == 0 && r.value.free == 0
  {
    match cap
    case Err(e) => Err(e)
    case Ok(c) => Ok(EmptyStat.(total := c))
  }

  function VirtualMemory(h: Host): Result<VirtualMemoryStat> {
    match ZoneName(h)
    case Err(e) => Err(e)
    case Ok(zone) => StatOf(ZoneCapacity(h, zone))
  }

  function SwapMemory(): (r: Result<SwapMemoryStat>)
    ensures r == Err(NotImplemented)
  {
    Err(NotImplemented)
  }

  // ---- The global zone: prtconf ----

  /** Zero matches and two or more matches are both the same error; the
      first of several matches is never taken. */
  lemma PrtconfNeedsExactlyOne(out: string)
    ensures |Occurrences(out)| != 1 ==> PrtconfCapacity(out) == Err(NoMemorySize)
    ensures PrtconfCapacity(out).Ok? ==> |Occurrences(out)| == 1
  {
    MatchCount(out);
  }

  /** With exactly one match, the result is the decimal value of its digit
      run, and the only possible failure is a value above 2^64 - 1. */
  lemma PrtconfSingleMatch(out: string, i: nat)
    requires Occurrences(out) == {i}
    ensures MatchesAt(out, i)
    ensures var digits := Group(out, SpanAt(out, i));
      && digits != [] && AllDigits(digits)
      && PrtconfCapacity(out) == if DigitsValue(digits) <= MaxUint64 then Ok(DigitsValue(digits)) else Err(RangeError(digits))
  {
    SingleOccurrence(out, i);
    GroupIsDigits(out, i);
    ParseUintOfDigits(Group(out, SpanAt(out, i)));
  }

  /** The conditions under which a prtconf report has one "Memory size"
      line, on a line of its own. */
  ghost predicate OneMemoryLine(before: string, digits: string, after: string) {
    && Occurrences(before) == {} && Occurrences(after) == {}
    && (before == [] || before[|before| - 1] == '\n')
    && (after == [] || after[0] == '\n')
    && digits != [] && AllDigits(digits)
  }

  lemma LineMatches(before: string, digits: string, after: string)
    requires digits != [] && AllDigits(digits)
    ensures var out := before + Prefix + digits + Suffix + after;
      && MatchesAt(out, |before|)
      && SpanAt(out, |before|).end == |before| + |Prefix| + |digits| + |Suffix|
      && Group(out, SpanAt(out, |before|)) == digits
  {
    var out := before + Prefix + digits + Suffix + after;
    var i := |before|;
    var j := i + |Prefix| + |digits| + |Suffix|;
    assert PatternSpans(out, i, j) by {
      assert out[i..i + |Prefix|] == Prefix;
      assert out[j - |Suffix|..j] == Suffix;
      assert out[i + |Prefix|..j - |Suffix|] == digits;
    }
    MatchesAtIsPattern(out, i);
  }

  lemma NoOccurrence(s: string, p: nat)
    requires Occurrences(s) == {} && p <= |s|
    ensures !MatchesAt(s, p)
  {
    assert p !in Occurrences(s);
  }

  /** A match lying inside a piece of the text is a match of that piece. */
  lemma MatchInPiece(out: string, lo: nat, hi: nat, p: nat, q: nat)
    requires lo <= p <= q <= hi <= |out| && PatternSpans(out, p, q)
    ensures MatchesAt(out[lo..hi], p - lo)
  {
    var piece := out[lo..hi];
    SliceOfSlice(out, lo, hi, p - lo, q - lo);
    PatternSpansShift(out, p, q, piece, p - lo);
    MatchesAtIsPattern(piece, p - lo);
  }

  /** A match at i ending at j, on a line of its own, in a text with no
      match before i or after j, is the only match. */
  lemma OnlyLineMatches(out: string, i: nat, j: nat, p: nat)
    requires MatchesAt(out, i) && SpanAt(out, i).end == j
    requires Occurrences(out[..i]) == {} && Occurrences(out[j..]) == {}
    requires (i == 0 || out[i - 1] == '\n') && (j == |out| || out[j] == '\n')
    requires MatchesAt(out, p)
    ensures p == i
  {
    MatchesAtIsPattern(out, p);
    var q := SpanAt(out, p).end;
    if q <= i {
      assert out[0..i] == out[..i];
      MatchInPiece(out, 0, i, p, q);
      NoOccurrence(out[..i], p);
    } else if p < i {
      PatternSpansNoNewline(out, p, q, i - 1);
    } else if j <= p {
      assert out[j..|out|] == out[j..];
      MatchInPiece(out, j, |out|, p, q);
      NoOccurrence(out[j..], p - j);
    } else if j < q {
      PatternSpansNoNewline(out, p, q, j);
    } else if i < p {
      NoOverlap(out, i, p);
    }
  }

  /** A prtconf report whose only "Memory size" line is a line of its own
      gives that line's number. */
  lemma PrtconfOneLine(before: string, digits: string, after: string)
    requires OneMemoryLine(before, digits, after)
    ensures PrtconfCapacity(before + Prefix + digits + Suffix + after)
      == if DigitsValue(digits) <= MaxUint64 then Ok(DigitsValue(digits)) else Err(RangeError(digits))
  {
    var out := before + Prefix + digits + Suffix + after;
    var i := |before|;
    var j := i + |Prefix| + |digits| + |Suffix|;
    LineMatches(before, digits, after);
    assert out[..i] == before;
    assert out[j..] == after;
    forall p: nat | p <= |out| && MatchesAt(out, p)
      ensures p == i
    {
      OnlyLineMatches(out, i, j, p);
    }
    assert Occurrences(out) == {i};
    PrtconfSingleMatch(out, i);
  }

  // ---- A non-global zone: zonememstat ----

  /** Fewer than three fields is an error; otherwise the result is ParseUint
      of the third field: the guard on an empty field never fires, because
      strings.Fields yields no empty field. */
  lemma ZoneMemStatCapField(out: string)
    ensures |Fields(out)| < 3 ==> ZoneMemStatCapacity(out) == Err(NoCapacityField)
    ensures |Fields(out)| >= 3 ==> ZoneMemStatCapacity(out) == ParseUint(Fields(out)[CapOffset])
  {
  }

  /** A column after white space is the next field. */
  lemma ColumnThenRest(sp: string, w: string, rest: string)
    requires AllSpace(sp) && IsWord(w) && (rest == [] || IsSpace(rest[0]))
    ensures (sp + (w + rest))[|sp|] == w[0]
    ensures Fields(sp + (w + rest)) == [w] + Fields(rest)
  {
    FieldsOfWord(w, rest);
    FieldsSkipSpaces(sp, w + rest);
  }

  /** Of a zonememstat row only the CAP column matters: whatever the first
      two columns and whatever follows the third, and however much white
      space separates them, the result is ParseUint of the third. */
  lemma ZoneMemStatRow(lead: string, id: string, sp1: string, rss: string, sp2: string, cap: string, tail: string)
    requires AllSpace(lead) && AllSpace(sp1) && AllSpace(sp2) && sp1 != [] && sp2 != []
    requires IsWord(id) && IsWord(rss) && IsWord(cap)
    requires tail == [] || IsSpace(tail[0])
    ensures ZoneMemStatCapacity(lead + (id + (sp1 + (rss + (sp2 + (cap + tail)))))) == ParseUint(cap)
  {
    var row3 := cap + tail;
    var row2 := rss + (sp2 + row3);
    ColumnThenRest(sp2, cap, tail);
    ColumnThenRest(sp1, rss, sp2 + row3);
    ColumnThenRest(lead, id, sp1 + row2);
    ZoneMemStatCapField(lead + (id + (sp1 + row2)));
  }

  // ---- VirtualMemory ----

  /** A failing zone-name lookup or run is VirtualMemory's error. */
  lemma VirtualMemoryZoneNameFails(h: Host)
    requires ZoneName(h).Err?
    ensures VirtualMemory(h) == Err(ZoneName(h).error)
  {
  }

  /** The prtconf branch is taken exactly when the raw zone name is "global",
      character for character; any other name goes, unchanged, to zonememstat. */
  lemma VirtualMemoryDispatch(h: Host, zone: string)
    requires ZoneName(h) == Ok(zone)
    ensures zone == GlobalZone ==> VirtualMemory(h) == StatOf(GlobalZoneMemoryCapacity(h))
    ensures zone != GlobalZone ==> VirtualMemory(h) == StatOf(NonGlobalZoneMemoryCapacity(h, zone))
  {
  }

  /** Two hosts answer one invocation alike. */
  predicate SameTool(h: Host, h': Host, path: string, args: seq<string>) {
    && h.lookPath(path) == h'.lookPath(path)
    && (h.lookPath(path).Ok? ==> h.command(h.lookPath(path).value, args) == h'.command(h.lookPath(path).value, args))
  }

  /** VirtualMemory consults zonename, then only the tool its zone calls for,
      with the zone name passed after -z: hosts that agree on those
      invocations give the same result. When zonename fails, nothing else
      is consulted. */
  lemma VirtualMemoryConsults(h: Host, h': Host)
    requires SameTool(h, h', ZoneNamePath, [])
    requires ZoneName(h) == Ok(GlobalZone) ==> SameTool(h, h', PrtconfPath, [])
    requires ZoneName(h).Ok? && ZoneName(h).value != GlobalZone ==>
      SameTool(h, h', ZoneMemStatPath, ["-H", "-z", ZoneName(h).value])
    ensures VirtualMemory(h) == VirtualMemory(h')
  {
  }

  /** A successful VirtualMemory sets Total and nothing else. */
  lemma VirtualMemoryOnlyTotal(h: Host)
    ensures VirtualMemory(h).Ok? ==> VirtualMemory(h).value == EmptyStat.(total := VirtualMemory(h).value.total)
    ensures VirtualMemory(h).Ok? <==> ZoneName(h).Ok? && ZoneCapacity(h, ZoneName(h).value).Ok?
  {
  }

  // ---- The zone name, as written and trimmed ----

  /** zoneName with its output trimmed of white space (zonename ends its
      output with a newline). */
  function ZoneNameTrimmed(h: Host): Result<string> {
    match ZoneName(h)
    case Err(e) => Err(e)
    case Ok(zone) => Ok(TrimSpace(zone))
  }

  /** VirtualMemory with the trimmed zone name. */
  function VirtualMemoryTrimmed(h: Host): Result<VirtualMemoryStat> {
    match ZoneNameTrimmed(h)
    case Err(e) => Err(e)
    case Ok(zone) => StatOf(ZoneCapacity(h, zone))
  }

  /** As written, the zone name "global\n" is not the global zone: the
      backend asks zonememstat about a zone called "global\n". Trimmed, it
      is the global zone and prtconf is consulted. */
  lemma RawZoneNameWithNewline(h: Host)
    requires ZoneName(h) == Ok("global\n")
    ensures VirtualMemory(h) == StatOf(NonGlobalZoneMemoryCapacity(h, "global\n"))
    ensures VirtualMemoryTrimmed(h) == StatOf(GlobalZoneMemoryCapacity(h))
  {
    assert "global\n" == "" + GlobalZone + "\n";
    TrimSpaceOf("", GlobalZone, "\n");
  }

  /** With trimming, the prtconf branch is taken exactly when the zone name
      is "global" with any white space around it; any other name goes to
      zonememstat trimmed. */
  lemma TrimmedZoneDispatch(h: Host, a: string, zone: string, b: string)
    requires AllSpace(a) && AllSpace(b) && Trimmed(zone)
    requires ZoneName(h) == Ok(a + zone + b)
    ensures zone == GlobalZone ==> VirtualMemoryTrimmed(h) == StatOf(GlobalZoneMemoryCapacity(h))
    ensures zone != GlobalZone ==> VirtualMemoryTrimmed(h) == StatOf(NonGlobalZoneMemoryCapacity(h, zone))
  {
    TrimSpaceOf(a, zone, b);
  }

  // ---- Examples ----

  /** A prtconf line reporting 16384 megabytes. */
  lemma PrtconfExample()
    ensures PrtconfCapacity("Memory size: 16384 Megabytes\n") == Ok(16384)
  {
    assert "Memory size: 16384 Megabytes\n" == "" + Prefix + "16384" + Suffix + "\n";
    assert Occurrences("") == {};
    assert Occurrences("\n") == {};
    assert DigitsValue("16384") == 16384 by {
      assert "16384"[..4] == "1638" && "1638"[..3] == "163" && "163"[..2] == "16";
      assert "16"[..1] == "1" && "1"[..0] == "";
    }
    PrtconfOneLine("", "16384", "\n");
  }
}
