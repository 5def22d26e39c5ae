/** The rotating file logger: a ring of truncated files against one unbounded log. */
module RotatingFileLoggerModel {
  import opened Sequences

  /** `generations` and `stream` remember all that was written; the other fields are the source's. */
  datatype LogState = LogState(
    maxSize: nat,
    maxFiles: nat,
    files: map<nat, seq<string>>,       // the disk: lines of the file with each index
    index: nat,
    size: nat,
    isOpen: bool,
    generations: seq<seq<string>>,
    stream: seq<string>)

  /** A message to log, and the header and the outcome of the rotation it may cause. */
  datatype Event = Event(line: string, header: string, opens: bool)

  /** Bytes of a file with these lines, newlines included. */
  function Bytes(lines: seq<string>): nat {
    if lines == [] then 0 else Bytes(lines[..|lines| - 1]) + |lines[|lines| - 1]| + 1
  }

  function Rotate(r: LogState, header: string, opens: bool): LogState
    requires r.maxFiles >= 1
  {
    var next := (r.index + 1) % r.maxFiles;
    if opens then
      r.(index := next, isOpen := true, size := |header| + 1, files := r.files[next := [header]],
         generations := r.generations + [[header]], stream := r.stream + [header])
    else
      r.(index := next, isOpen := false, size := |header| + 1)
  }

  function Append(r: LogState, line: string): LogState
    requires r.isOpen ==> r.index in r.files && r.generations != []
  {
    if r.isOpen then
      var last := |r.generations| - 1;
      r.(files := r.files[r.index := r.files[r.index] + [line]], size := r.size + |line| + 1,
         generations := r.generations[last := r.generations[last] + [line]], stream := r.stream + [line])
    else r
  }

  /** An open file exists. */
  predicate Usable(r: LogState) {
    r.maxFiles >= 1 && (r.isOpen ==> r.index in r.files && r.generations != [])
  }

  function LogLine(r: LogState, e: Event): LogState
    requires Usable(r)
  {
    Append(if r.size >= r.maxSize then Rotate(r, e.header, e.opens) else r, e.line)
  }

  /** The constructor: a first rotation on whatever is on the disk. */
  function Start(maxSize: nat, maxFiles: nat, disk: map<nat, seq<string>>, header: string, opens: bool): LogState
    requires maxFiles >= 1
  {
    Rotate(LogState(maxSize, maxFiles, disk, 0, 0, false, [], []), header, opens)
  }

  function Run(r: LogState, events: seq<Event>): LogState
    requires Usable(r)
    decreases events
  {
    if events == [] then r else Run(LogLine(r, events[0]), events[1..])
  }

  // ---- arithmetic of the ring ----

  lemma ModUnique(q: int, r: int, m: int)
    requires m >= 1 && 0 <= r < m
    ensures (q * m + r) % m == r
  {
    var x := q * m + r;
    var k := q - x / m;
    assert x == (x / m) * m + x % m;
    assert k * m == q * m - (x / m) * m;
    Multiple(k, m);
  }

  lemma Multiple(k: int, m: int)
    requires m >= 1
    ensures (k >= 1 ==> k * m >= m) && (k <= -1 ==> k * m <= -m)
  {
  }

  /** Counting the generations is counting the file index. */
  lemma ModNext(n: nat, m: nat)
    requires m >= 1
    ensures (n % m + 1) % m == (n + 1) % m
  {
    var q, r := n / m, n % m;
    assert n == q * m + r;
    if r + 1 < m {
      ModUnique(q, r + 1, m);
    } else {
      assert (q + 1) * m + 0 == n + 1;
      ModUnique(q + 1, 0, m);
      ModUnique(1, 0, m);
    }
  }

  /** Stepping back from the current file is stepping back in the log. */
  lemma ModBack(n: nat, d: nat, m: nat)
    requires m >= 1 && d < m && d <= n
    ensures (n % m + m - d) % m == (n - d) % m
  {
    var q, r := n / m, n % m;
    assert n == q * m + r;
    if d <= r {
      ModUnique(q, r - d, m);
      ModUnique(1, r - d, m);
    } else {
      assert n - d == (q - 1) * m + (r + m - d);
      ModUnique(q - 1, r + m - d, m);
      ModUnique(0, r + m - d, m);
    }
  }

  /** Fewer than `m` steps apart, two generations have different files. */
  lemma ModApart(a: nat, b: nat, m: nat)
    requires m >= 1 && a < b < a + m
    ensures a % m != b % m
  {
    var d := b - a;
    ModBack(b, d, m);
    var r := b % m;
    assert (r + m - d) % m == a % m;
    if d <= r {
      ModUnique(1, r - d, m);
      assert 1 * m + (r - d) == r + m - d;
    } else {
      ModUnique(0, r + m - d, m);
    }
  }

  // ---- the ring ----

  function Least(a: nat, b: nat): nat {
    if a < b then a else b
  }

  /** How many generations the ring can still hold. */
  function Kept(r: LogState): nat {
    Least(|r.generations|, r.maxFiles)
  }

  /** Every open succeeded so far: the last generations are on disk, each in its own file. */
  ghost predicate RingInv(r: LogState) {
    var n := |r.generations|;
    && r.maxFiles >= 1 && n >= 1 && r.isOpen
    && r.index == n % r.maxFiles
    && (forall g :: n - Kept(r) <= g < n ==> InPlace(r, g))
    && r.size == Bytes(r.generations[n - 1])
    && r.stream == Flatten(r.generations)
  }

  predicate InPlace(r: LogState, g: nat)
    requires r.maxFiles >= 1
  {
    var i := (g + 1) % r.maxFiles;
    i in r.files && g < |r.generations| && r.files[i] == r.generations[g]
  }

  /** Generations are closed as soon as they reach the size limit, and not before; the message that
      causes a rotation follows the header whatever the sizes. */
  ghost predicate SizeInv(r: LogState) {
    && (forall g :: 0 <= g < |r.generations| - 1 ==> Bytes(r.generations[g]) >= r.maxSize)
    && (forall g :: 0 <= g < |r.generations| && |r.generations[g]| > 2 ==>
          Bytes(r.generations[g][..|r.generations[g]| - 1]) < r.maxSize)
  }

  lemma RotateKeeps(r: LogState, header: string)
    requires RingInv(r) || (r.maxFiles >= 1 && r.generations == [] && r.stream == [] && r.index == 0)
    ensures RingInv(Rotate(r, header, true))
  {
    var t := Rotate(r, header, true);
    var n := |r.generations|;
    ModNext(n, r.maxFiles);
    assert n == 0 ==> 0 % r.maxFiles == 0;
    assert t.generations[n] == [header];
    assert [header][..0] == [];
    assert Bytes([header]) == Bytes([]) + |header| + 1;
    forall g | n + 1 - Kept(t) <= g < n + 1
      ensures InPlace(t, g)
    {
      if g < n {
        assert InPlace(r, g);
        ModApart(g + 1, n + 1, r.maxFiles);
      }
    }
    FlattenConcat(r.generations, [[header]]);
    assert Flatten([[header]]) == [header] + Flatten([]);
  }

  lemma AppendKeeps(r: LogState, line: string)
    requires RingInv(r) && r.index in r.files
    ensures RingInv(Append(r, line))
  {
    var t := Append(r, line);
    var n := |r.generations|;
    assert InPlace(r, n - 1);
    forall g | n - Kept(t) <= g < n
      ensures InPlace(t, g)
    {
      assert InPlace(r, g);
      if g < n - 1 {
        ModApart(g + 1, n, r.maxFiles);
      }
    }
    var last := r.generations[n - 1];
    assert (last + [line])[..|last|] == last;
    FlattenExtend(r.generations, line);
  }

  lemma {:induction false} FlattenExtend(s: seq<seq<string>>, line: string)
    requires s != []
    ensures Flatten(s[|s| - 1 := s[|s| - 1] + [line]]) == Flatten(s) + [line]
  {
    var front, last := s[..|s| - 1], s[|s| - 1];
    assert s == front + [last];
    assert s[|s| - 1 := last + [line]] == front + [last + [line]];
    FlattenConcat(front, [last]);
    FlattenConcat(front, [last + [line]]);
    assert Flatten([last]) == last + Flatten([]);
    assert Flatten([last + [line]]) == (last + [line]) + Flatten([]);
  }

  lemma LogKeeps(r: LogState, e: Event)
    requires RingInv(r) && Usable(r) && e.opens
    ensures RingInv(LogLine(r, e)) && Usable(LogLine(r, e))
  {
    if r.size >= r.maxSize {
      RotateKeeps(r, e.header);
      AppendKeeps(Rotate(r, e.header, true), e.line);
    } else {
      AppendKeeps(r, e.line);
    }
  }

  lemma SizeStep(r: LogState, e: Event)
    requires RingInv(r) && Usable(r) && SizeInv(r) && e.opens
    ensures SizeInv(LogLine(r, e))
  {
    if r.size >= r.maxSize {
      RotateKeeps(r, e.header);
      var mid := Rotate(r, e.header, true);
      assert forall g :: 0 <= g < |r.generations| ==> mid.generations[g] == r.generations[g];
      AppendSizes(mid, e.line);
    } else {
      AppendSizes(r, e.line);
    }
  }

  lemma AppendSizes(r: LogState, line: string)
    requires RingInv(r) && Usable(r) && SizeInv(r)
    requires r.size < r.maxSize || |r.generations[|r.generations| - 1]| == 1
    ensures SizeInv(Append(r, line))
  {
    var t := Append(r, line);
    var n := |r.generations|;
    var last := r.generations[n - 1];
    assert t.generations[n - 1] == last + [line];
    assert (last + [line])[..|last|] == last;
    assert forall g :: 0 <= g < n - 1 ==> t.generations[g] == r.generations[g];
  }

  predicate AllOpen(events: seq<Event>) {
    forall i :: 0 <= i < |events| ==> events[i].opens
  }

  lemma {:induction false} RunKeeps(r: LogState, events: seq<Event>)
    requires RingInv(r) && Usable(r) && AllOpen(events)
    ensures RingInv(Run(r, events))
    decreases events
  {
    if events == [] {
    } else {
      LogKeeps(r, events[0]);
      assert forall i :: 0 <= i < |events[1..]| ==> events[1..][i] == events[i + 1];
      RunKeeps(LogLine(r, events[0]), events[1..]);
    }
  }

  /** The file index of generation `j` of those still held. */
  function Slot(r: LogState, j: nat): nat
    requires r.maxFiles >= 1 && j < Kept(r)
  {
    (r.index + r.maxFiles - (Kept(r) - 1 - j)) % r.maxFiles
  }

  function HeldFile(r: LogState, j: nat): seq<string>
    requires r.maxFiles >= 1 && j < Kept(r)
  {
    if Slot(r, j) in r.files then r.files[Slot(r, j)] else []
  }

  /** The files of the ring, from the oldest still held to the current one. */
  function Ring(r: LogState): seq<seq<string>>
    requires r.maxFiles >= 1
  {
    seq(Kept(r), (j: nat) requires j < Kept(r) => HeldFile(r, j))
  }

  lemma HeldFileIsGeneration(r: LogState, j: nat)
    requires RingInv(r) && j < Kept(r)
    ensures HeldFile(r, j) == r.generations[|r.generations| - Kept(r) + j]
  {
    var n, k := |r.generations|, Kept(r);
    ModBack(n, k - 1 - j, r.maxFiles);
    assert InPlace(r, n - k + j);
  }

  lemma RingIsTail(r: LogState)
    requires RingInv(r)
    ensures Ring(r) == r.generations[|r.generations| - Kept(r)..]
  {
    forall j | 0 <= j < Kept(r)
      ensures Ring(r)[j] == r.generations[|r.generations| - Kept(r)..][j]
    {
      HeldFileIsGeneration(r, j);
    }
  }

  lemma FlattenCut(s: seq<seq<string>>, cut: nat)
    requires cut <= |s|
    ensures Flatten(s) == Flatten(s[..cut]) + Flatten(s[cut..])
  {
    assert s == s[..cut] + s[cut..];
    FlattenConcat(s[..cut], s[cut..]);
  }

  lemma RingReadsBack(r: LogState)
    requires RingInv(r)
    ensures Ring(r) == r.generations[|r.generations| - Kept(r)..]
    ensures r.stream == Flatten(r.generations[..|r.generations| - Kept(r)]) + Flatten(Ring(r))
  {
    RingIsTail(r);
    FlattenCut(r.generations, |r.generations| - Kept(r));
  }

  /** Whatever is on the disk at first and whatever is logged, if every open succeeds, the files read in
      ring order are the last min(rotations, max_files) generations: a suffix of all that was written. */
  lemma RingAgreesWithLog(maxSize: nat, maxFiles: nat, disk: map<nat, seq<string>>, header: string, events: seq<Event>)
    requires maxFiles >= 1 && AllOpen(events)
    ensures var r := Run(Start(maxSize, maxFiles, disk, header, true), events);
            && r.maxFiles >= 1
            && Kept(r) == Least(|r.generations|, r.maxFiles)
            && Ring(r) == r.generations[|r.generations| - Kept(r)..]
            && r.stream == Flatten(r.generations[..|r.generations| - Kept(r)]) + Flatten(Ring(r))
            && r.stream == [header] + Written(Start(maxSize, maxFiles, disk, header, true), events)
  {
    var s := Start(maxSize, maxFiles, disk, header, true);
    RotateKeeps(LogState(maxSize, maxFiles, disk, 0, 0, false, [], []), header);
    RunKeeps(s, events);
    RunWrites(s, events);
    RingReadsBack(Run(s, events));
    assert s.stream == [header];
  }

  /** What a run adds to the log: every message in order, and a header before each that rotates. */
  function Written(r: LogState, events: seq<Event>): seq<string>
    requires Usable(r)
    decreases events
  {
    if events == [] then []
    else
      Output(r, events[0]) + Written(LogLine(r, events[0]), events[1..])
  }

  /** What one call adds to the log. */
  function Output(r: LogState, e: Event): seq<string> {
    (if r.size >= r.maxSize then [e.header] else []) + [e.line]
  }

  lemma LogWrites(r: LogState, e: Event)
    requires RingInv(r) && Usable(r) && e.opens
    ensures LogLine(r, e).stream == r.stream + Output(r, e)
  {
    assert r.stream + ([e.header] + [e.line]) == (r.stream + [e.header]) + [e.line];
    assert [] + [e.line] == [e.line];
  }

  lemma {:induction false} RunWrites(r: LogState, events: seq<Event>)
    requires RingInv(r) && Usable(r) && AllOpen(events)
    ensures Run(r, events).stream == r.stream + Written(r, events)
    decreases events
  {
    if events == [] {
      assert r.stream + [] == r.stream;
    } else {
      var t := LogLine(r, events[0]);
      LogKeeps(r, events[0]);
      LogWrites(r, events[0]);
      assert forall i :: 0 <= i < |events[1..]| ==> events[1..][i] == events[i + 1];
      RunWrites(t, events[1..]);
      assert Run(r, events) == Run(t, events[1..]);
      Regroup(r.stream, Output(r, events[0]), Written(t, events[1..]));
    }
  }

  lemma {:induction false} SizesAlong(r: LogState, events: seq<Event>)
    requires RingInv(r) && Usable(r) && SizeInv(r) && AllOpen(events)
    ensures SizeInv(Run(r, events))
    decreases events
  {
    if events == [] {
    } else {
      LogKeeps(r, events[0]);
      SizeStep(r, events[0]);
      assert forall i :: 0 <= i < |events[1..]| ==> events[1..][i] == events[i + 1];
      SizesAlong(LogLine(r, events[0]), events[1..]);
    }
  }

  /** Each generation but the current one reaches the limit, and none of more than two lines did so
      before its last line. */
  lemma GenerationSizes(maxSize: nat, maxFiles: nat, disk: map<nat, seq<string>>, header: string, events: seq<Event>)
    requires maxFiles >= 1 && AllOpen(events)
    ensures SizeInv(Run(Start(maxSize, maxFiles, disk, header, true), events))
  {
    var s := Start(maxSize, maxFiles, disk, header, true);
    RotateKeeps(LogState(maxSize, maxFiles, disk, 0, 0, false, [], []), header);
    assert s.generations[0] == [header];
    SizesAlong(s, events);
  }

  // ---- the index ----

  /** How many calls of the run try a rotation. */
  function Rotations(r: LogState, events: seq<Event>): nat
    requires Usable(r)
    decreases events
  {
    if events == [] then 0
    else (if r.size >= r.maxSize then 1 else 0) + Rotations(LogLine(r, events[0]), events[1..])
  }

  lemma {:induction false} IndexAlong(r: LogState, events: seq<Event>, n: nat)
    requires Usable(r) && r.index == n % r.maxFiles
    ensures Run(r, events).maxFiles == r.maxFiles
    ensures Run(r, events).index == (n + Rotations(r, events)) % r.maxFiles
    decreases events
  {
    if events == [] {
    } else {
      ModNext(n, r.maxFiles);
      IndexAlong(LogLine(r, events[0]), events[1..], if r.size >= r.maxSize then n + 1 else n);
    }
  }

  /** Whether or not files could be opened, the file index is the number of rotations tried so far, the
      first of them at construction, round the ring. */
  lemma IndexCountsRotations(maxSize: nat, maxFiles: nat, disk: map<nat, seq<string>>, header: string, opens: bool,
                             events: seq<Event>)
    requires maxFiles >= 1
    ensures var s := Start(maxSize, maxFiles, disk, header, opens);
            Run(s, events).index == (1 + Rotations(s, events)) % maxFiles
  {
    var s := Start(maxSize, maxFiles, disk, header, opens);
    ModNext(0, maxFiles);
    ModUnique(0, 0, maxFiles);
    IndexAlong(s, events, 1);
  }

  // ---- failed opens ----

  lemma {:induction false} StaysSilent(r: LogState, events: seq<Event>)
    requires Usable(r) && !r.isOpen && r.size < r.maxSize
    ensures Run(r, events) == r
    decreases events
  {
    if events == [] {
    } else {
      StaysSilent(LogLine(r, events[0]), events[1..]);
    }
  }

  lemma GetsThrough(r: LogState) returns (events: seq<Event>)
    requires Usable(r) && !r.isOpen && r.size >= r.maxSize
    ensures Run(r, events) != r
  {
    var e := Event("", "", true);
    var t := LogLine(r, e);
    events := [e];
    assert t.isOpen && t == Run(t, events[1..]);
    assert Run(r, events) == Run(LogLine(r, events[0]), events[1..]);
  }

  /** Without an open file, some later calls get through if and only if the counted header reaches the
      limit; otherwise no call is written and no rotation is tried ever again. */
  lemma SilentAfterFailedOpen(r: LogState)
    requires Usable(r) && !r.isOpen
    ensures (exists events :: Run(r, events) != r) <==> r.size >= r.maxSize
  {
    if r.size >= r.maxSize {
      var events := GetsThrough(r);
    } else {
      forall events
        ensures Run(r, events) == r
      {
        StaysSilent(r, events);
      }
    }
  }

  lemma {:induction false} LimitKept(r: LogState, events: seq<Event>)
    requires Usable(r)
    ensures Usable(Run(r, events)) && Run(r, events).maxSize == r.maxSize
    decreases events
  {
    if events == [] {
    } else {
      LimitKept(LogLine(r, events[0]), events[1..]);
    }
  }

  /** Where it happens: at the first open or at that of any later rotation, a failed open silences the
      logger for good if and only if its header is below the limit. */
  lemma FailedOpenSilences(maxSize: nat, maxFiles: nat, disk: map<nat, seq<string>>, header: string, opens: bool,
                           before: seq<Event>, e: Event)
    requires maxFiles >= 1 && !e.opens
    ensures var r := Start(maxSize, maxFiles, disk, header, false);
            (forall events :: Run(r, events) == r) <==> |header| + 1 < maxSize
    ensures var r := Run(Start(maxSize, maxFiles, disk, header, opens), before);
            && Usable(r)
            && (r.size >= maxSize ==>
                  var t := LogLine(r, e);
                  (forall events :: Run(t, events) == t) <==> |e.header| + 1 < maxSize)
  {
    SilentAfterFailedOpen(Start(maxSize, maxFiles, disk, header, false));
    var r := Run(Start(maxSize, maxFiles, disk, header, opens), before);
    LimitKept(Start(maxSize, maxFiles, disk, header, opens), before);
    if r.size >= maxSize {
      SilentAfterFailedOpen(LogLine(r, e));
    }
  }

  /** The logger as an object; the histories are ghost. */
  class RotatingFileLogger {
    const max_file_size_: nat
    const max_files_: nat
    var files: map<nat, seq<string>>
    var current_file_index_: nat
    var current_size_: nat
    var is_open: bool
    ghost var generations: seq<seq<string>>
    ghost var stream: seq<string>

    ghost function Model(): LogState
      reads this
    {
      LogState(max_file_size_, max_files_, files, current_file_index_, current_size_, is_open, generations, stream)
    }

    constructor (maxFileSize: nat, maxFiles: nat, disk: map<nat, seq<string>>, header: string, opens: bool)
      requires maxFiles >= 1
      ensures Model() == Start(maxFileSize, maxFiles, disk, header, opens) && Usable(Model())
    {
      max_file_size_, max_files_ := maxFileSize, maxFiles;
      files, current_file_index_, current_size_, is_open := disk, 0, 0, false;
      generations, stream := [], [];
      new;
      RotateLogFile(header, opens);
    }

    /** Moves to the next file of the ring, truncates it and writes a header, if it can be opened. */
    method RotateLogFile(header: string, opens: bool)
      requires max_files_ >= 1
      modifies this
      ensures Model() == Rotate(old(Model()), header, opens) && Usable(Model())
    {
      is_open := false;
      current_file_index_ := (current_file_index_ + 1) % max_files_;
      is_open := opens;
      if is_open {
        files := files[current_file_index_ := []];
        generations := generations + [[]];
      }
      current_size_ := 0;
      if is_open {
        files := files[current_file_index_ := files[current_file_index_] + [header]];
        generations := generations[|generations| - 1 := generations[|generations| - 1] + [header]];
        stream := stream + [header];
      }
      current_size_ := current_size_ + |header| + 1;
      assert [] + [header] == [header];
      assert is_open ==> files == old(files)[current_file_index_ := [header]];
      assert is_open ==> generations == old(generations) + [[header]];
    }

    method Log(line: string, header: string, opens: bool)
      requires Usable(Model())
      modifies this
      ensures Model() == LogLine(old(Model()), Event(line, header, opens)) && Usable(Model())
      ensures !old(is_open) && old(current_size_) < max_file_size_ ==> Model() == old(Model())
    {
      if current_size_ >= max_file_size_ {
        RotateLogFile(header, opens);
      }
      if is_open {
        files := files[current_file_index_ := files[current_file_index_] + [line]];
        current_size_ := current_size_ + |line| + 1;
        generations := generations[|generations| - 1 := generations[|generations| - 1] + [line]];
        stream := stream + [line];
      }
    }
  }
}
