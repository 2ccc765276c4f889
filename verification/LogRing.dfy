/** The rotating log recorder: a bounded ring of files that always reads, from the oldest
    backup to the current file, as the most recent part of everything ever logged. */
module LogRing {
  import opened Text

  /** The log directory: 0 is the current file, k the k-th backup. */
  type Files = map<nat, string>

  function ContentOf(files: Files, k: nat): string
  {
    if k in files then files[k] else ""
  }

  /** Backups `n`, `n - 1`, ... 1 and the current file, read one after the other. */
  function Reading(files: Files, n: nat): string
  {
    if n == 0 then ContentOf(files, 0) else ContentOf(files, n) + Reading(files, n - 1)
  }

  ghost predicate IsSuffix(part: string, whole: string)
  {
    |part| <= |whole| && part == whole[|whole| - |part|..]
  }

  /** A line as the recorder writes it: no line break but the last character. */
  predicate IsLine(line: string)
  {
    line != "" && line[|line| - 1] == '\n' && forall i | 0 <= i < |line| - 1 :: line[i] != '\n'
  }

  /** The file ends where a line ends. */
  predicate EndsWithLine(content: string)
  {
    content == "" || content[|content| - 1] == '\n'
  }

  ghost predicate WholeLines(files: Files)
  {
    forall k | k in files :: EndsWithLine(files[k])
  }

  ghost predicate InRing(files: Files, n: nat)
  {
    forall k | k in files :: k <= n
  }

  ghost predicate SizesWithin(files: Files, bound: nat)
  {
    forall k | k in files :: |files[k]| <= bound
  }

  function TotalSize(files: Files, n: nat): nat
  {
    |ContentOf(files, n)| + if n == 0 then 0 else TotalSize(files, n - 1)
  }

  /** Dropping the oldest backup. */
  function WithoutOldest(files: Files, n: nat): Files
  {
    map k | k in files && k != n :: files[k]
  }

  /** `rename(k, k + 1)`: replaces the target, and does nothing when there is no source. */
  function Renamed(files: Files, k: nat): Files
  {
    if k in files then (map j | j in files && j != k :: files[j])[k + 1 := files[k]] else files
  }

  lemma SuffixOfSuffix(a: string, b: string, c: string)
    requires IsSuffix(a, b) && IsSuffix(b, c)
    ensures IsSuffix(a, c)
  {
  }

  lemma SuffixGrows(part: string, whole: string, more: string)
    requires IsSuffix(part, whole)
    ensures IsSuffix(part + more, whole + more)
  {
  }

  lemma {:induction false} ReadingUnchanged(files: Files, other: Files, n: nat)
    requires forall k: nat | k <= n :: ContentOf(files, k) == ContentOf(other, k)
    ensures Reading(files, n) == Reading(other, n)
  {
    if n > 0 {
      ReadingUnchanged(files, other, n - 1);
    }
  }

  lemma {:induction false} ReadingAppends(files: Files, n: nat, more: string)
    ensures Reading(files[0 := ContentOf(files, 0) + more], n) == Reading(files, n) + more
  {
    var next := files[0 := ContentOf(files, 0) + more];
    if n > 0 {
      ReadingAppends(files, n - 1, more);
      assert ContentOf(next, n) == ContentOf(files, n);
      Regroup(ContentOf(files, n), Reading(files, n - 1), more);
    }
  }

  lemma Regroup(a: string, b: string, c: string)
    ensures a + (b + c) == (a + b) + c
  {
  }

  lemma RenamedContent(files: Files, k: nat, j: nat)
    ensures ContentOf(Renamed(files, k), j) ==
            if k !in files then ContentOf(files, j)
            else if j == k then "" else if j == k + 1 then files[k] else ContentOf(files, j)
  {
  }

  /** Moving file k into an empty slot k + 1 does not change what is read. */
  lemma {:induction false} RenameKeepsReading(files: Files, k: nat, n: nat)
    requires k < n && k + 1 !in files
    ensures Reading(Renamed(files, k), n) == Reading(files, n)
    decreases n
  {
    hide Renamed;
    var next := Renamed(files, k);
    forall j: nat
      ensures ContentOf(next, j) == if k !in files then ContentOf(files, j)
              else if j == k then "" else if j == k + 1 then files[k] else ContentOf(files, j)
    {
      RenamedContent(files, k, j);
    }
    if k + 1 < n {
      RenameKeepsReading(files, k, n - 1);
    } else if k > 0 {
      ReadingUnchanged(files, next, k - 1);
      assert Reading(next, k) == Reading(next, k - 1);
    }
  }

  /** Losing the oldest backup leaves the rest of the reading. */
  lemma OldestIsPrefix(files: Files, n: nat)
    requires n >= 1
    ensures IsSuffix(Reading(WithoutOldest(files, n), n), Reading(files, n))
  {
    ReadingUnchanged(files, WithoutOldest(files, n), n - 1);
  }

  /** Renaming over the oldest backup is losing it first. */
  lemma RenameOverOldest(files: Files, n: nat)
    requires n >= 1 && n - 1 in files
    ensures Renamed(files, n - 1) == Renamed(WithoutOldest(files, n), n - 1)
  {
  }

  /** What file k holds once the backups above `from` and file `from` itself, which is still empty, have
      been moved up. */
  function ShiftedContent(files: Files, n: nat, from: nat, k: nat): string
  {
    if from < k <= n then ContentOf(files, k - 1) else if k == from then "" else ContentOf(files, k)
  }

  lemma ShiftedOneMore(files: Files, before: Files, n: nat, i: nat)
    requires i < n && n !in files
    requires forall k: nat :: ContentOf(before, k) == ShiftedContent(files, n, i + 1, k)
    requires i in before ==> i + 1 !in before || i + 1 == n
    ensures forall k: nat :: ContentOf(Renamed(before, i), k) == ShiftedContent(files, n, i, k)
  {
    hide Renamed;
    forall k: nat
      ensures ContentOf(Renamed(before, i), k) == ShiftedContent(files, n, i, k)
    {
      RenamedContent(before, i, k);
      assert ContentOf(before, k) == ShiftedContent(files, n, i + 1, k);
      assert ContentOf(before, i) == ShiftedContent(files, n, i + 1, i);
    }
  }

  lemma OldestShiftsOut(files: Files, n: nat)
    requires n >= 1
    ensures forall k: nat :: ShiftedContent(WithoutOldest(files, n), n, 0, k) == ShiftedContent(files, n, 0, k)
  {
  }

  /** What held of every file still does. */
  ghost predicate Shuffled(before: Files, now: Files, n: nat)
  {
    && (InRing(before, n) ==> InRing(now, n))
    && (WholeLines(before) ==> WholeLines(now))
    && (forall bound | SizesWithin(before, bound) :: SizesWithin(now, bound))
  }

  lemma ShuffledItself(files: Files, n: nat)
    ensures Shuffled(files, files, n)
  {
  }

  lemma ShuffledOpen(files: Files, n: nat)
    ensures Shuffled(files, files[0 := ContentOf(files, 0)], n)
  {
  }

  lemma ShuffledTwice(a: Files, b: Files, c: Files, n: nat)
    requires Shuffled(a, b, n) && Shuffled(b, c, n)
    ensures Shuffled(a, c, n)
  {
  }

  lemma {:induction false} TotalSizeBound(files: Files, n: nat, bound: nat)
    requires SizesWithin(files, bound)
    ensures TotalSize(files, n) <= (n + 1) * bound
  {
    if n > 0 {
      TotalSizeBound(files, n - 1, bound);
    }
  }

  /** How a file operation or a write turns out; `Short(k)` is a write that stopped early. */
  datatype Fate = Works | Fails | Short(written: nat)

  datatype Status = Written | Canceled | Failed

  class Recorder {
    var files: Files
    var open: bool
    var enabled: bool
    var size: nat
    var maxBytes: nat
    var maxBackups: nat
    var clock: nat
    const fate: nat -> Fate
    /** Everything that was in the ring to begin with and everything written since. */
    ghost var log: string

    /** What holds whatever the limits were before. */
    ghost predicate Consistent()
      reads this
    {
      maxBackups >= 1 && (open ==> 0 in files && size == |files[0]|)
    }

    ghost predicate Valid()
      reads this
    {
      Consistent() && IsSuffix(Reading(files, maxBackups), log)
    }

    constructor (files: Files, maxBytes: nat, maxBackups: nat, fate: nat -> Fate)
      requires maxBackups >= 1
      ensures Valid() && !open && !enabled && this.files == files && this.fate == fate
      ensures this.maxBytes == maxBytes && this.maxBackups == maxBackups
      ensures log == Reading(files, maxBackups)
    {
      this.files, this.maxBytes, this.maxBackups, this.fate := files, maxBytes, maxBackups, fate;
      open, enabled, size, clock := false, false, 0, 0;
      log := Reading(files, maxBackups);
    }

    method Tick() returns (f: Fate)
      modifies this`clock
      ensures f == fate(old(clock)) && clock == old(clock) + 1
    {
      f := fate(clock);
      clock := clock + 1;
    }

    /** Opens the current file for appending, creating it when missing. */
    method Open() returns (ok: bool)
      requires Consistent() && !open
      modifies this`files, this`open, this`size, this`clock
      ensures Consistent() && (old(Valid()) ==> Valid()) && old(clock) < clock
      ensures ok == open
      ensures ok ==> files == old(files)[0 := ContentOf(old(files), 0)]
      ensures !ok ==> files == old(files)
      ensures ok <==> fate(old(clock)).Works?
    {
      var f := Tick();
      ok := f.Works?;
      if ok {
        var next := files[0 := ContentOf(files, 0)];
        ReadingUnchanged(files, next, maxBackups);
        files := next;
        size := |files[0]|;
        open := true;
      }
    }

    method Enable() returns (ok: bool)
      requires Consistent()
      modifies this`files, this`open, this`size, this`clock, this`enabled
      ensures Consistent() && (old(Valid()) ==> Valid())
      ensures ok == enabled
      ensures old(enabled) ==> ok && files == old(files) && open == old(open) && clock == old(clock)
      ensures !old(enabled) ==> (ok <==> fate(old(clock)).Works?) && ok == open
      ensures !old(enabled) ==> files == if ok then old(files)[0 := ContentOf(old(files), 0)] else old(files)
    {
      if enabled {
        return true;
      }
      open := false;
      ok := Open();
      enabled := ok;
    }

    method Disable()
      requires Consistent()
      modifies this`open, this`enabled
      ensures Consistent() && (old(Valid()) ==> Valid()) && !enabled && (old(enabled) ==> !open)
    {
      if enabled {
        open, enabled := false, false;
      }
    }

    /** New settings. Limits hold from the next line on, and no file is touched because of them: what the ring
        reads may then change, with backups inside it that were outside before. */
    method Apply(bytes: int, backups: int, wanted: bool) returns (ok: bool)
      requires Consistent()
      modifies this`files, this`open, this`size, this`clock, this`enabled, this`maxBytes, this`maxBackups
      ensures Consistent()
      ensures maxBytes == (if bytes <= 0 then 0xA0_0000 else bytes) && maxBackups == if backups <= 0 then 3 else backups
      ensures old(Valid()) && NoneBetween(old(files), old(maxBackups), maxBackups) ==> Valid()
      ensures forall k: nat :: ContentOf(files, k) == ContentOf(old(files), k)
      ensures old(enabled) == wanted ==>
                && ok && enabled == wanted && files == old(files)
                && open == old(open) && size == old(size) && clock == old(clock)
      ensures !wanted ==> ok && !enabled
      ensures wanted && !old(enabled) ==> ok == open == enabled && (ok <==> fate(old(clock)).Works?)
    {
      maxBytes := if bytes <= 0 then 0xA0_0000 else bytes;
      maxBackups := if backups <= 0 then 3 else backups;
      if NoneBetween(files, old(maxBackups), maxBackups) && old(Valid()) {
        LimitChangeKeepsSuffix(files, old(maxBackups), maxBackups, log);
      }
      if enabled == wanted {
        return true;
      }
      if wanted {
        ok := Enable();
      } else {
        Disable();
        ok := true;
      }
    }

    /** Moves file k to k + 1, an empty slot unless it is the oldest backup's, which could not
        be removed before: no other backup is ever overwritten. */
    method Shift(k: nat) returns (ok: bool)
      requires Valid() && !open && k < maxBackups
      requires k + 1 in files ==> k + 1 == maxBackups
      modifies this`files, this`clock
      ensures Valid() && old(clock) < clock && Shuffled(old(files), files, maxBackups)
      ensures ok ==> files == Renamed(old(files), k) && k !in files
      ensures !ok ==> files == old(files)
      ensures fate(old(clock)).Works? ==> ok
      ensures k + 1 !in old(files) ==> Reading(files, maxBackups) == Reading(old(files), maxBackups)
    {
      var f := Tick();
      ok := k !in files || f.Works?;
      if ok {
        if k in files && k + 1 in files {
          OldestIsPrefix(files, maxBackups);
          RenameOverOldest(files, maxBackups);
          RenameKeepsReading(WithoutOldest(files, maxBackups), k, maxBackups);
          SuffixOfSuffix(Reading(WithoutOldest(files, maxBackups), maxBackups), Reading(files, maxBackups), log);
        } else if k in files {
          RenameKeepsReading(files, k, maxBackups);
        }
        files := Renamed(files, k);
      }
    }

    method RemoveOldest()
      requires Valid() && !open
      modifies this`files, this`clock
      ensures Valid() && old(clock) < clock && Shuffled(old(files), files, maxBackups)
      ensures files == old(files) || files == WithoutOldest(old(files), maxBackups)
      ensures fate(old(clock)).Works? ==> files == WithoutOldest(old(files), maxBackups)
    {
      var f := Tick();
      if f.Works? {
        OldestIsPrefix(files, maxBackups);
        SuffixOfSuffix(Reading(WithoutOldest(files, maxBackups), maxBackups), Reading(files, maxBackups), log);
        files := WithoutOldest(files, maxBackups);
      }
    }

    /** Moves backups n - 1, ..., 1 and then the current file up by one. */
    method ShiftAll() returns (ok: bool)
      requires Valid() && !open
      modifies this`files, this`clock
      ensures Valid() && old(clock) <= clock && Shuffled(old(files), files, maxBackups)
      ensures ok ==> 0 !in files
      ensures FaultFree(old(clock)) ==> ok
      ensures maxBackups !in old(files) ==> Reading(files, maxBackups) == Reading(old(files), maxBackups)
      ensures ok && maxBackups !in old(files) ==>
                forall k: nat :: ContentOf(files, k) == ShiftedContent(old(files), maxBackups, 0, k)
    {
      hide Shuffled, IsSuffix, Reading;
      var i := maxBackups - 1;
      ShuffledItself(files, maxBackups);
      while i >= 0
        invariant -1 <= i < maxBackups
        invariant Valid() && !open && old(clock) <= clock && Shuffled(old(files), files, maxBackups)
        invariant i + 1 in files ==> i + 1 == maxBackups && maxBackups in old(files)
        invariant maxBackups !in old(files) ==> Reading(files, maxBackups) == Reading(old(files), maxBackups)
        invariant maxBackups !in old(files) ==>
                    forall k: nat :: ContentOf(files, k) == ShiftedContent(old(files), maxBackups, i + 1, k)
      {
        ghost var before := files;
        var shifted := Shift(i);
        if shifted && maxBackups !in old(files) {
          ShiftedOneMore(old(files), before, maxBackups, i);
        }
        ShuffledTwice(old(files), before, files, maxBackups);
        if !shifted {
          return false;
        }
        i := i - 1;
      }
      ok := true;
    }

    ghost predicate FaultFree(from: nat)
    {
      forall k: nat | k >= from :: fate(k).Works?
    }

    /** Drops the oldest backup, shifts the others up, makes the current file the newest
        backup and opens a new one. Failing anywhere, it leaves a ring that still reads as
        the most recent part of the log. */
    method Rotate() returns (ok: bool)
      requires Valid()
      modifies this`files, this`open, this`size, this`clock
      ensures Valid() && old(clock) <= clock && Shuffled(old(files), files, maxBackups)
      ensures ok == open
      ensures ok ==> size == 0
      ensures FaultFree(old(clock)) ==>
                ok && Reading(files, maxBackups) == Reading(WithoutOldest(old(files), maxBackups), maxBackups)
      ensures FaultFree(old(clock)) ==> forall k: nat :: ContentOf(files, k) == ShiftedContent(old(files), maxBackups, 0, k)
    {
      hide IsSuffix, ShiftedContent;
      open := false;
      RemoveOldest();
      ghost var kept := files;
      ok := ShiftAll();
      ShuffledTwice(old(files), kept, files, maxBackups);
      if ok {
        ghost var shifted := files;
        ok := Open();
        ShuffledOpen(shifted, maxBackups);
        ReadingUnchanged(shifted, files, maxBackups);
        ShuffledTwice(old(files), shifted, files, maxBackups);
        OldestShiftsOut(old(files), maxBackups);
      }
    }

    /** One write system call: all of the bytes, none, or only the first few. */
    method Append(bytes: string) returns (ok: bool)
      requires Valid() && open
      modifies this`files, this`size, this`clock, this`log
      ensures Valid() && old(clock) <= clock
      ensures Extended(old(log), log, bytes)
      ensures files == old(files)[0 := old(files)[0] + log[|old(log)|..]]
      ensures ok ==> log == old(log) + bytes
      ensures fate(old(clock)).Works? ==> ok
    {
      hide IsSuffix;
      var f := Tick();
      var n := match f case Works => |bytes| case Fails => 0 case Short(k) => if k < |bytes| then k else |bytes|;
      ok := f.Works?;
      ReadingAppends(files, maxBackups, bytes[..n]);
      SuffixGrows(Reading(files, maxBackups), log, bytes[..n]);
      files := files[0 := files[0] + bytes[..n]];
      size := size + n;
      log := log + bytes[..n];
    }

    /** Writes one line, rotating first when the current file has something in it and the
        line would take it over the limit. A written line is the end of the current file, in
        one piece. */
    method WriteLine(line: string, ghost bound: nat) returns (status: Status)
      requires Valid() && IsLine(line)
      requires maxBytes <= bound && |line| <= bound
      modifies this`files, this`open, this`size, this`clock, this`log
      ensures Valid() && old(clock) <= clock
      ensures status.Canceled? <==> !(old(enabled) && old(open))
      ensures status.Canceled? ==> files == old(files) && log == old(log) && open == old(open) && clock == old(clock)
      ensures status.Written? ==> log == old(log) + line && open && |line| <= size && files[0][size - |line|..] == line
      ensures status.Failed? ==> Extended(old(log), log, line)
      ensures InRing(old(files), maxBackups) ==> InRing(files, maxBackups)
      ensures status.Written? && WholeLines(old(files)) ==> WholeLines(files)
      ensures SizesWithin(old(files), bound) ==> SizesWithin(files, bound)
      ensures FaultFree(old(clock)) ==> !status.Failed?
      ensures FaultFree(old(clock)) && status.Written? ==>
                var rotates := old(size) > 0 && old(size) + |line| > maxBytes;
                && ContentOf(files, 0) == (if rotates then line else ContentOf(old(files), 0) + line)
                && forall k: nat | k > 0 ::
                     ContentOf(files, k)
                     == if rotates then ShiftedContent(old(files), maxBackups, 0, k) else ContentOf(old(files), k)
    {
      hide IsSuffix, Reading, ShiftedContent;
      if !enabled || !open {
        return Canceled;
      }
      if size > 0 && size + |line| > maxBytes {
        var rotated := Rotate();
        if !rotated {
          return Failed;
        }
      }
      ghost var before, whole := files[0], log;
      assert size == 0 ==> files[0] == "";
      var ok := Append(line);
      if ok {
        assert log[|whole|..] == line;
        assert files[0] == before + line;
      }
      status := if ok then Written else Failed;
    }

    /** Reads the kernel's log stream to its end, writing the payload of every line that has
        one; stops at the first line that cannot be written. */
    method Consume(stream: seq<string>, ghost bound: nat) returns (ok: bool)
      requires Valid() && forall s | s in stream :: '\n' !in s
      requires maxBytes <= bound && LinesWithin(stream, bound)
      modifies this`files, this`open, this`size, this`clock, this`log
      ensures Valid()
      ensures ok ==> log == old(log) + Payloads(stream)
      ensures FaultFree(old(clock)) && old(enabled) && old(open) ==> ok
      ensures InRing(old(files), maxBackups) ==> InRing(files, maxBackups)
      ensures ok && WholeLines(old(files)) ==> WholeLines(files)
      ensures SizesWithin(old(files), bound) ==> SizesWithin(files, bound)
    {
      hide IsSuffix, IsLine, WholeLines, Reading, InRing, SizesWithin, Payload, Payloads;
      EmptyStream(stream);
      for i := 0 to |stream|
        invariant Valid() && old(clock) <= clock
        invariant log == old(log) + Payloads(stream[..i])
        invariant old(enabled) && old(open) ==> open
        invariant InRing(old(files), maxBackups) ==> InRing(files, maxBackups)
        invariant WholeLines(old(files)) ==> WholeLines(files)
        invariant SizesWithin(old(files), bound) ==> SizesWithin(files, bound)
      {
        assert stream[..i + 1] == stream[..i] + [stream[i]];
        PayloadsAppend(stream[..i], stream[i]);
        var payload := Payload(stream[i]);
        if payload != "" {
          PayloadIsLine(stream[i]);
          var status := WriteLine(payload + "\n", bound);
          if !status.Written? {
            return false;
          }
        }
      }
      assert stream[..|stream|] == stream;
      ok := true;
    }
  }

  /** After a rotation that failed the recorder is enabled and has no file. Then it drops every line, and being
      enabled once more changes nothing, until it has been disabled: only that makes it open a file again. */
  method FailedRotationSilences(r: Recorder, lines: seq<string>) returns (reopened: bool)
    requires r.Valid() && r.enabled && !r.open && forall l | l in lines :: IsLine(l)
    modifies r
    ensures r.Valid() && r.log == old(r.log) && forall k: nat :: ContentOf(r.files, k) == ContentOf(old(r.files), k)
    ensures reopened == r.open == r.enabled
    ensures r.fate(old(r.clock)).Works? ==> reopened
  {
    for i := 0 to |lines|
      invariant r.Valid() && r.enabled && !r.open
      invariant r.files == old(r.files) && r.log == old(r.log) && r.clock == old(r.clock)
    {
      var bound := if r.maxBytes > |lines[i]| then r.maxBytes else |lines[i]|;
      var status := r.WriteLine(lines[i], bound);
      assert status.Canceled?;
      var ok := r.Enable();
    }
    r.Disable();
    reopened := r.Enable();
  }

  /** The log grew by some first part of the bytes. */
  ghost predicate Extended(before: string, now: string, bytes: string)
  {
    before <= now && now[|before|..] <= bytes
  }

  /** The part of a stream line that is recorded: the line itself, or what follows "data:". */
  function Payload(raw: string): string
  {
    var line := Trim(raw);
    if "data:" <= line then Trim(line[5..]) else line
  }

  /** Framed as an event or not, with spaces around and in between or not, the same is recorded. */
  lemma FramedAlike(before: string, gap: string, payload: string, after: string)
    requires Blank(before) && Blank(gap) && Blank(after)
    requires Trim(payload) == payload && payload != "" && !("data:" <= payload)
    ensures Payload(before + payload + after) == payload
    ensures Payload(before + ("data:" + gap + payload) + after) == payload
  {
    TrimEnds(payload);
    TrimBetween(before, payload, after);
    var framed := "data:" + gap + payload;
    assert framed[0] == 'd' && !IsSpace('d') && framed[|framed| - 1] == payload[|payload| - 1];
    TrimBetween(before, framed, after);
    TrimBetween(gap, payload, "");
    assert framed[5..] == gap + payload + "";
    hide Trim, Blank;
    assert "data:" <= framed;
  }

  lemma TrimEnds(s: string)
    requires Trim(s) == s && s != ""
    ensures !IsSpace(s[0]) && !IsSpace(s[|s| - 1])
  {
    var left := TrimLeft(s);
    assert TrimRight(left) <= left && left != "" && |left| >= |s|;
    LeftLength(s);
  }

  lemma {:induction false} LeftLength(s: string)
    ensures |TrimLeft(s)| <= |s| && (|TrimLeft(s)| == |s| ==> TrimLeft(s) == s)
  {
    if s != "" && IsSpace(s[0]) {
      LeftLength(s[1..]);
    }
  }

  lemma {:induction false} TrimBetween(before: string, s: string, after: string)
    requires Blank(before) && Blank(after) && s != "" && !IsSpace(s[0]) && !IsSpace(s[|s| - 1])
    ensures Trim(before + s + after) == s
    decreases |before| + |after|
  {
    var all := before + s + after;
    if before != "" {
      assert all[1..] == before[1..] + s + after;
      TrimBetween(before[1..], s, after);
    } else {
      assert all == s + after && TrimLeft(all) == all;
      RightBlank(s, after);
    }
  }

  lemma {:induction false} RightBlank(s: string, after: string)
    requires Blank(after) && s != "" && !IsSpace(s[|s| - 1])
    ensures TrimRight(s + after) == s
  {
    var all := s + after;
    if after != "" {
      assert all[..|all| - 1] == s + after[..|after| - 1];
      RightBlank(s, after[..|after| - 1]);
    } else {
      assert all == s;
    }
  }

  function Payloads(stream: seq<string>): string
  {
    if stream == [] then ""
    else
      var last := Payload(stream[|stream| - 1]);
      Payloads(stream[..|stream| - 1]) + if last == "" then "" else last + "\n"
  }

  ghost predicate LinesWithin(stream: seq<string>, bound: nat)
  {
    forall s | s in stream :: |Payload(s)| + 1 <= bound
  }

  lemma EmptyStream(stream: seq<string>)
    ensures Payloads(stream[..0]) == ""
  {
  }

  lemma PayloadsAppend(stream: seq<string>, raw: string)
    ensures Payloads(stream + [raw]) == Payloads(stream) + if Payload(raw) == "" then "" else Payload(raw) + "\n"
  {
    assert (stream + [raw])[..|stream|] == stream;
  }

  lemma PayloadIsLine(raw: string)
    requires '\n' !in raw
    ensures IsLine(Payload(raw) + "\n")
  {
    TrimEmpty(raw);
    var line := Trim(raw);
    assert '\n' !in line;
    if "data:" <= line {
      TrimEmpty(line[5..]);
      assert forall c | c in line[5..] :: c in line;
    }
    var payload := Payload(raw);
    assert '\n' !in payload;
    assert forall i | 0 <= i < |payload| :: payload[i] in payload;
  }

  // ---- changing the number of backups ----

  /** No file says anything from n + 1 to m. */
  predicate NoneBetween(files: Files, n: nat, m: nat)
  {
    forall k | n < k <= m :: ContentOf(files, k) == ""
  }

  lemma {:induction false} LimitChangeKeepsSuffix(files: Files, n: nat, m: nat, log: string)
    requires IsSuffix(Reading(files, n), log) && NoneBetween(files, n, m)
    ensures IsSuffix(Reading(files, m), log)
    decreases if m < n then n - m else m - n
  {
    if m < n {
      assert IsSuffix(Reading(files, n - 1), Reading(files, n));
      LimitChangeKeepsSuffix(files, n - 1, m, log);
    } else if n < m {
      assert Reading(files, n + 1) == Reading(files, n);
      LimitChangeKeepsSuffix(files, n + 1, m, log);
    }
  }

  lemma {:induction false} ReadingGrows(files: Files, n: nat, m: nat)
    requires n <= m
    ensures |Reading(files, n)| <= |Reading(files, m)|
    ensures |Reading(files, n)| == |Reading(files, m)| ==> NoneBetween(files, n, m)
    decreases m
  {
    if n < m {
      ReadingGrows(files, n, m - 1);
    }
  }

  /** Whatever has been logged, with another number of backups the ring still reads as the most recent part of
      it, if and only if no file that the new number takes in says anything. */
  lemma LimitChangeExactly(files: Files, n: nat, m: nat)
    ensures (forall log | IsSuffix(Reading(files, n), log) :: IsSuffix(Reading(files, m), log))
            <==> NoneBetween(files, n, m)
  {
    if NoneBetween(files, n, m) {
      forall log | IsSuffix(Reading(files, n), log)
        ensures IsSuffix(Reading(files, m), log)
      {
        LimitChangeKeepsSuffix(files, n, m, log);
      }
    } else {
      ReadingGrows(files, n, m);
      assert IsSuffix(Reading(files, n), Reading(files, n));
    }
  }

  /** A line of as many bytes as the smallest limit there is. */
  function LongLine(c: char): (line: string)
    requires c != '\n'
    ensures IsLine(line) && |line| == 1024 && line[0] == c
  {
    seq(1023, _ => c) + "\n"
  }

  /** Backups do come back: lowering the limit to one, logging a line and raising it to two again has the ring
      read x, b, c when x, a, b, c were logged. */
  method RaisedLimitFindsStaleBackup(fate: nat -> Fate) returns (r: Recorder)
    requires forall k: nat :: fate(k).Works?
    ensures fresh(r) && r.Consistent() && r.enabled && r.open && r.maxBackups == 2
    ensures r.log == LongLine('x') + LongLine('a') + LongLine('b') + LongLine('c')
    ensures Reading(r.files, 2) == LongLine('x') + LongLine('b') + LongLine('c')
    ensures !IsSuffix(Reading(r.files, 2), r.log)
  {
    hide IsSuffix, LongLine, Reading;
    r := new Recorder(map[], 1024, 2, fate);
    assert r.log == "" by { EmptyReading(2); }
    var ok := r.Apply(1024, 2, true);
    FillRing(r);
    ok := r.Apply(1024, 1, true);
    LogLong(r, 'c');
    ok := r.Apply(1024, 2, true);
    StaleReading(r.files, r.log);
  }

  lemma {:induction false} EmptyReading(n: nat)
    ensures Reading(map[], n) == ""
  {
    if n > 0 {
      EmptyReading(n - 1);
    }
  }

  method FillRing(r: Recorder)
    requires r.Valid() && r.enabled && r.open && r.log == "" && r.maxBytes == 1024 && r.maxBackups == 2
    requires r.FaultFree(r.clock) && ContentOf(r.files, 0) == ""
    modifies r
    ensures r.Valid() && r.enabled && r.open && r.maxBytes == 1024 && r.maxBackups == 2 && r.FaultFree(r.clock)
    ensures r.log == LongLine('x') + LongLine('a') + LongLine('b')
    ensures ContentOf(r.files, 0) == LongLine('b') && ContentOf(r.files, 1) == LongLine('a')
    ensures ContentOf(r.files, 2) == LongLine('x')
  {
    hide IsSuffix, LongLine, Reading;
    LogLong(r, 'x');
    assert r.log == LongLine('x');
    LogLong(r, 'a');
    assert ContentOf(r.files, 1) == LongLine('x');
    LogLong(r, 'b');
  }

  lemma StaleReading(files: Files, log: string)
    requires ContentOf(files, 0) == LongLine('c') && ContentOf(files, 1) == LongLine('b')
    requires ContentOf(files, 2) == LongLine('x')
    requires log == LongLine('x') + LongLine('a') + LongLine('b') + LongLine('c')
    ensures Reading(files, 2) == LongLine('x') + LongLine('b') + LongLine('c')
    ensures !IsSuffix(Reading(files, 2), log)
  {
    hide LongLine;
    var x, a, b, c := LongLine('x'), LongLine('a'), LongLine('b'), LongLine('c');
    assert Reading(files, 1) == b + c;
    assert x + (b + c) == x + b + c;
    assert (x + b + c)[0] == 'x' && log[1024..][0] == 'a';
  }

  method LogLong(r: Recorder, c: char)
    requires c != '\n' && r.Valid() && r.enabled && r.open && r.maxBytes == 1024 && r.FaultFree(r.clock)
    modifies r
    ensures r.Valid() && r.enabled && r.open && r.maxBytes == 1024 && r.FaultFree(r.clock)
    ensures r.maxBackups == old(r.maxBackups) && r.log == old(r.log) + LongLine(c)
    ensures ContentOf(r.files, 0) == LongLine(c)
    ensures forall k: nat | k > 0 ::
              ContentOf(r.files, k)
              == if ContentOf(old(r.files), 0) != "" && k <= r.maxBackups then ContentOf(old(r.files), k - 1)
                 else ContentOf(old(r.files), k)
  {
    hide IsSuffix, Reading, LongLine;
    var status := r.WriteLine(LongLine(c), 1024);
  }
}
