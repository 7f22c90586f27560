/** The rotating log: the current file and its numbered backups. */
module LogRotation {

  const MAX_SIZE := 100 * 1024 * 1024
  const ROTATE_COUNT := 10

  /** The files by number: 0 is the current one, 1 its newest backup. Each holds the lines written to it. */
  type Files = map<nat, seq<string>>

  datatype Disk = Disk(files: Files, size: int)

  /** Bytes of a line with its line end. */
  function LineSize(line: string): nat {
    |line| + 1
  }

  function Size(lines: seq<string>): nat {
    if lines == [] then 0 else Size(lines[..|lines| - 1]) + LineSize(lines[|lines| - 1])
  }

  /** What a file with these lines holds. */
  function Text(lines: seq<string>): string {
    if lines == [] then "" else Text(lines[..|lines| - 1]) + lines[|lines| - 1] + "\n"
  }

  lemma {:induction false} SizeIsLength(lines: seq<string>)
    ensures Size(lines) == |Text(lines)|
  {
    if lines != [] {
      SizeIsLength(lines[..|lines| - 1]);
    }
  }

  /** What a write does to the files, by their contents alone. A current file of less than 100 MiB gets the line and
      nothing else changes. A larger one becomes backup 1, backups 1 to 8 move up by one, backup 9 replaces backup 10
      if it is there, and a new current file holds the line alone. */
  ghost predicate WriteOutcome(before: Files, after: Files, line: string) {
    && 0 in before && 0 in after
    && (|Text(before[0])| < 104857600 ==> after == before[0 := before[0] + [line]])
    && (|Text(before[0])| >= 104857600 ==>
          && after[0] == [line]
          && 1 in after && after[1] == before[0]
          && (forall k :: 1 <= k <= 8 ==> (k + 1 in after <==> k in before) && (k in before ==> after[k + 1] == before[k]))
          && (if 9 in before then 10 in after && after[10] == before[9]
              else (10 in after <==> 10 in before) && (10 in before ==> after[10] == before[10]))
          && (forall k :: k > 10 ==> (k in after <==> k in before) && (k in before ==> after[k] == before[k])))
  }

  /** The lines of files n, n-1, ..., 0: oldest first. */
  function Reading(files: Files, n: nat): seq<string> {
    (if n in files then files[n] else []) + (if n == 0 then [] else Reading(files, n - 1))
  }

  /** Where file k comes from when every file moves up by one: from the one below it, except that the oldest
      backup stays if there is none below it. */
  predicate HasAfter(files: Files, k: nat) {
    if k == 0 then true
    else if k < ROTATE_COUNT then k - 1 in files
    else if k == ROTATE_COUNT then k - 1 in files || k in files
    else k in files
  }

  function ContentAfter(files: Files, k: nat): seq<string>
    requires HasAfter(files, k)
  {
    if k == 0 then []
    else if k <= ROTATE_COUNT && k - 1 in files then files[k - 1]
    else files[k]
  }

  /** The files moved up, with an empty current one. */
  ghost predicate IsRotated(before: Files, after: Files) {
    forall k: nat :: (k in after <==> HasAfter(before, k)) && (k in after ==> after[k] == ContentAfter(before, k))
  }

  /** File k once the files above number i have moved: those up to i are in place, i + 1 is free, the rest are done. */
  ghost predicate SlotMoved(before: Files, now: Files, i: int, k: nat) {
    if k <= i || i == ROTATE_COUNT - 1 then (k in now <==> k in before) && (k in now ==> now[k] == before[k])
    else if k == i + 1 then k !in now
    else (k in now <==> HasAfter(before, k)) && (k in now ==> now[k] == ContentAfter(before, k))
  }

  ghost predicate MovedDownTo(before: Files, now: Files, i: int) {
    forall k: nat :: SlotMoved(before, now, i, k)
  }

  lemma MoveStep(before: Files, now: Files, i: nat)
    requires i < ROTATE_COUNT && MovedDownTo(before, now, i)
    ensures MovedDownTo(before, if i in now then now[i + 1 := now[i]] - {i} else now, i - 1)
  {
    var next, below := if i in now then now[i + 1 := now[i]] - {i} else now, i - 1;
    forall k: nat
      ensures SlotMoved(before, next, below, k)
    {
      assert SlotMoved(before, now, i, k) && SlotMoved(before, now, i, i);
    }
  }

  lemma MovedIsRotated(before: Files, now: Files)
    requires MovedDownTo(before, now, -1)
    ensures IsRotated(before, now[0 := []])
  {
    var after := now[0 := []];
    forall k: nat
      ensures k in after <==> HasAfter(before, k)
      ensures k in after ==> after[k] == ContentAfter(before, k)
    {
      assert SlotMoved(before, now, -1, k);
    }
  }

  class Logger {
    var files: Files
    var currentSize: int

    ghost predicate Valid()
      reads this
    {
      0 in files && currentSize == Size(files[0])
    }

    function View(): Disk
      reads this
    {
      Disk(files, currentSize)
    }

    /** Opens the current file for appending, whatever is there already. */
    constructor (existing: Files)
      ensures Valid() && files == if 0 in existing then existing else existing[0 := []]
    {
      files := if 0 in existing then existing else existing[0 := []];
      currentSize := Size(if 0 in existing then existing[0] else []);
    }

    method WriteEntry(line: string)
      requires Valid()
      modifies this
      ensures Valid()
      ensures Written(old(View()), View(), line)
      ensures WriteOutcome(old(files), files, line)
    {
      ghost var before := View();
      if currentSize >= MAX_SIZE {
        RotateLocked();
      }
      AppendSize(files[0], line);
      files := files[0 := files[0] + [line]];
      currentSize := currentSize + LineSize(line);
      WrittenOutcome(before, View(), line);
    }

    /** Renames the backups from the oldest down, then the current file, and starts a new one. */
    method RotateLocked()
      requires Valid()
      modifies this
      ensures IsRotated(old(files), files) && currentSize == 0 && Valid()
    {
      var i: int := ROTATE_COUNT - 1;
      while i >= 0
        invariant -1 <= i < ROTATE_COUNT
        invariant MovedDownTo(old(files), files, i)
        decreases i
      {
        MoveStep(old(files), files, i);
        if i in files {
          files := files[i + 1 := files[i]] - {i};
        }
        i := i - 1;
      }
      MovedIsRotated(old(files), files);
      files := files[0 := []];
      currentSize := 0;
    }
  }

  /** One line written: to the current file if it is below the maximum, otherwise to a new one after a rotation. */
  ghost predicate Written(before: Disk, after: Disk, line: string) {
    0 in before.files && 0 in after.files
    && (if before.size < MAX_SIZE
        then after == Disk(before.files[0 := before.files[0] + [line]], before.size + LineSize(line))
        else exists r: Files :: IsRotated(before.files, r) && after == Disk(r[0 := [line]], LineSize(line)))
  }

  ghost predicate Sized(d: Disk) {
    0 in d.files && d.size == Size(d.files[0])
  }

  lemma WrittenOutcome(before: Disk, after: Disk, line: string)
    requires Sized(before) && Written(before, after, line)
    ensures WriteOutcome(before.files, after.files, line)
  {
    SizeIsLength(before.files[0]);
    if before.size >= MAX_SIZE {
      var r: Files :| IsRotated(before.files, r) && after == Disk(r[0 := [line]], LineSize(line));
      RotatedSlots(before.files, r);
    }
  }

  lemma RotatedSlots(before: Files, after: Files)
    requires IsRotated(before, after) && 0 in before
    ensures 1 in after && after[1] == before[0]
    ensures forall k :: 1 <= k <= 8 ==> (k + 1 in after <==> k in before) && (k in before ==> after[k + 1] == before[k])
    ensures if 9 in before then 10 in after && after[10] == before[9]
            else (10 in after <==> 10 in before) && (10 in before ==> after[10] == before[10])
    ensures forall k :: k > 10 ==> (k in after <==> k in before) && (k in before ==> after[k] == before[k])
  {
    assert 1 in after <==> HasAfter(before, 1);
    assert 10 in after <==> HasAfter(before, 10);
    forall k | 1 <= k <= 8
      ensures (k + 1 in after <==> k in before) && (k in before ==> after[k + 1] == before[k])
    {
      assert k + 1 in after <==> HasAfter(before, k + 1);
    }
    forall k | k > 10
      ensures (k in after <==> k in before) && (k in before ==> after[k] == before[k])
    {
      assert k in after <==> HasAfter(before, k);
    }
  }

  lemma AppendSize(lines: seq<string>, line: string)
    ensures Size(lines + [line]) == Size(lines) + LineSize(line)
  {
    assert (lines + [line])[..|lines|] == lines;
  }

  // ---------- What reading the files gives ----------

  /** The lines that a rotation drops: those of the oldest backup, if another takes its place. */
  function Overwritten(files: Files): seq<string> {
    if ROTATE_COUNT in files && ROTATE_COUNT - 1 in files then files[ROTATE_COUNT] else []
  }

  /** Files n+1, n, ... after the rotation read like files n, n-1, ... before it. */
  lemma {:induction false} ReadingMovesUp(before: Files, after: Files, n: nat)
    requires IsRotated(before, after) && n + 1 < ROTATE_COUNT
    ensures Reading(after, n + 1) == Reading(before, n)
  {
    assert n + 1 in after <==> HasAfter(before, n + 1);
    if n > 0 {
      ReadingMovesUp(before, after, n - 1);
    } else {
      assert 0 in after && after[0] == ContentAfter(before, 0) && Reading(after, 0) == [];
    }
  }

  /** A rotation drops the oldest backup and nothing else. */
  lemma RotationReads(before: Files, after: Files)
    requires IsRotated(before, after)
    ensures Reading(before, ROTATE_COUNT) == Overwritten(before) + Reading(after, ROTATE_COUNT)
  {
    ReadingMovesUp(before, after, ROTATE_COUNT - 2);
    assert ROTATE_COUNT in after <==> HasAfter(before, ROTATE_COUNT);
    assert Reading(before, ROTATE_COUNT - 1)
           == (if ROTATE_COUNT - 1 in before then before[ROTATE_COUNT - 1] else []) + Reading(before, ROTATE_COUNT - 2);
  }

  lemma {:induction false} ReadingAppends(files: Files, line: string, n: nat)
    requires 0 in files
    ensures Reading(files[0 := files[0] + [line]], n) == Reading(files, n) + [line]
  {
    if n > 0 {
      ReadingAppends(files, line, n - 1);
    }
  }

  predicate IsSuffix(s: seq<string>, whole: seq<string>) {
    |s| <= |whole| && whole[|whole| - |s|..] == s
  }

  /** What can be read after a line was written is a suffix of what could be read before, and the line. */
  lemma WriteKeepsSuffix(before: Disk, after: Disk, line: string, history: seq<string>)
    requires Written(before, after, line) && IsSuffix(Reading(before.files, ROTATE_COUNT), history)
    ensures IsSuffix(Reading(after.files, ROTATE_COUNT), history + [line])
  {
    if before.size < MAX_SIZE {
      ReadingAppends(before.files, line, ROTATE_COUNT);
    } else {
      var r: Files :| IsRotated(before.files, r) && after == Disk(r[0 := [line]], LineSize(line));
      RotationReads(before.files, r);
      assert 0 in r && r[0] == ContentAfter(before.files, 0) && r[0] + [line] == [line];
      ReadingAppends(r, line, ROTATE_COUNT);
      SuffixOfSuffix(Overwritten(before.files), Reading(r, ROTATE_COUNT), history);
    }
    SuffixAppend(Reading(before.files, ROTATE_COUNT), history, line);
  }

  lemma SuffixOfSuffix(front: seq<string>, s: seq<string>, whole: seq<string>)
    requires IsSuffix(front + s, whole)
    ensures forall line :: IsSuffix(s + [line], whole + [line])
  {
    assert whole == whole[..|whole| - |front + s|] + front + s;
  }

  lemma SuffixAppend(s: seq<string>, whole: seq<string>, line: string)
    requires IsSuffix(s, whole)
    ensures IsSuffix(s + [line], whole + [line])
  {
  }

  /** The states of the files while the lines are written one after the other. */
  ghost predicate WritesAll(disks: seq<Disk>, lines: seq<string>) {
    |disks| == |lines| + 1 && forall i :: 0 <= i < |lines| ==> Written(disks[i], disks[i + 1], lines[i])
  }

  lemma LastLine(start: seq<string>, lines: seq<string>)
    requires lines != []
    ensures start + lines[..|lines| - 1] + [lines[|lines| - 1]] == start + lines
  {
  }

  /** Reading the backups from the oldest to the newest and then the current file always gives a suffix of what
      was there at the start and everything written since, in order. */
  lemma {:induction false} HistoryKept(disks: seq<Disk>, lines: seq<string>)
    requires WritesAll(disks, lines)
    ensures IsSuffix(Reading(disks[|lines|].files, 10), Reading(disks[0].files, 10) + lines)
    decreases |lines|
  {
    if lines != [] {
      var n := |lines| - 1;
      forall i | 0 <= i < n
        ensures Written(disks[..n + 1][i], disks[..n + 1][i + 1], lines[..n][i])
      {
        assert Written(disks[i], disks[i + 1], lines[i]);
      }
      HistoryKept(disks[..n + 1], lines[..n]);
      var start := Reading(disks[0].files, ROTATE_COUNT);
      WriteKeepsSuffix(disks[n], disks[n + 1], lines[n], start + lines[..n]);
      LastLine(start, lines);
    }
  }

  /** With backups 9 and 10 there, a rotation loses the lines of the oldest. */
  lemma OldestBackupLost(after: Files)
    requires IsRotated(map[0 := ["c"], 9 := ["b"], 10 := ["a"]], after)
    ensures 10 in after && after[10] == ["b"]
    ensures forall k :: k in after ==> "a" !in after[k]
  {
    var before: Files := map[0 := ["c"], ROTATE_COUNT - 1 := ["b"], ROTATE_COUNT := ["a"]];
    assert ROTATE_COUNT in after <==> HasAfter(before, ROTATE_COUNT);
    forall k | k in after
      ensures "a" !in after[k]
    {
      assert HasAfter(before, k) && after[k] == ContentAfter(before, k);
    }
  }

  // ---------- How large a file gets ----------

  /** The file's size is known, and without its last line the file is below the maximum. */
  ghost predicate Bounded(d: Disk) {
    Sized(d) && (d.files[0] != [] ==> Size(d.files[0][..|d.files[0]| - 1]) < MAX_SIZE)
  }

  /** The file rotated out has reached 100 MiB, and is below that and its last line together. */
  ghost predicate RotatedWithinBounds(before: Files, after: Files) {
    && 0 in before && 1 in after && after[1] == before[0] && before[0] != []
    && 104857600 <= |Text(after[1])| < 104857600 + |before[0][|before[0]| - 1]| + 1
  }

  /** Whatever was there before, a write leaves a current file that is below the maximum without its last line. */
  lemma WriteBounds(before: Disk, after: Disk, line: string)
    requires Sized(before) && Written(before, after, line)
    ensures Bounded(after)
  {
    if before.size >= MAX_SIZE {
      assert [line][..0] == [];
    } else {
      AppendSize(before.files[0], line);
      assert (before.files[0] + [line])[..|before.files[0]|] == before.files[0];
    }
  }

  /** A rotation moves out a file within bounds exactly when the file was bounded before the write. */
  lemma RotatedOutSize(before: Disk, after: Disk, line: string)
    requires Sized(before) && Written(before, after, line) && |Text(before.files[0])| >= 104857600
    ensures RotatedWithinBounds(before.files, after.files) <==> Bounded(before)
  {
    WrittenOutcome(before, after, line);
    SizeIsLength(before.files[0]);
    assert before.files[0] != [];
  }

  function BigLine(): string {
    seq(MAX_SIZE, _ => 'x')
  }

  /** A file that was over the bound when the logger opened it is rotated out as it is. */
  lemma OversizedAtStart(after: Disk, line: string)
    requires Written(Disk(map[0 := [BigLine(), ""]], Size([BigLine(), ""])), after, line)
    ensures var before := Disk(map[0 := [BigLine(), ""]], Size([BigLine(), ""]));
      Sized(before) && 1 in after.files && after.files[1] == [BigLine(), ""]
      && !RotatedWithinBounds(before.files, after.files)
  {
    var before := Disk(map[0 := [BigLine(), ""]], Size([BigLine(), ""]));
    AppendSize([], BigLine());
    AppendSize([BigLine()], "");
    assert [] + [BigLine()] == [BigLine()] && [BigLine()] + [""] == [BigLine(), ""];
    assert [BigLine(), ""][..1] == [BigLine()];
    SizeIsLength([BigLine(), ""]);
    WrittenOutcome(before, after, line);
    RotatedOutSize(before, after, line);
  }

  lemma {:induction false} BoundedAfterFirst(disks: seq<Disk>, lines: seq<string>, i: nat)
    requires WritesAll(disks, lines) && Sized(disks[0]) && i < |lines|
    ensures Sized(disks[i]) && (i > 0 ==> Bounded(disks[i]))
    decreases i
  {
    if i > 0 {
      BoundedAfterFirst(disks, lines, i - 1);
      assert Written(disks[i - 1], disks[i], lines[i - 1]);
      WriteBounds(disks[i - 1], disks[i], lines[i - 1]);
    }
  }

  /** In every run, by the contents of the files alone: a write that does anything but append its line to the current
      file finds that file at 100 MiB or more, and moves it to backup 1; and that file is below 100 MiB and its last
      line together, except for one that was there at the start and already over that bound, which the very first
      write moves out. */
  lemma AllRotatedWithinBounds(disks: seq<Disk>, lines: seq<string>, i: nat)
    requires WritesAll(disks, lines) && Sized(disks[0]) && i < |lines|
    ensures var before, after := disks[i].files, disks[i + 1].files;
      && WriteOutcome(before, after, lines[i])
      && (after != before[0 := before[0] + [lines[i]]] ==>
            && |Text(before[0])| >= 104857600 && 1 in after && after[1] == before[0]
            && (RotatedWithinBounds(before, after) <==> i > 0 || Bounded(disks[0])))
  {
    BoundedAfterFirst(disks, lines, i);
    assert Written(disks[i], disks[i + 1], lines[i]);
    WrittenOutcome(disks[i], disks[i + 1], lines[i]);
    if |Text(disks[i].files[0])| >= 104857600 {
      RotatedOutSize(disks[i], disks[i + 1], lines[i]);
    }
  }

  /** A logger opened on whatever files there are, and used: its files pass through such a run, and can be read as
      a suffix of everything there was and everything written. */
  method LogAll(existing: Files, lines: seq<string>) returns (files: Files, ghost disks: seq<Disk>)
    ensures WritesAll(disks, lines) && Sized(disks[0]) && disks[|lines|].files == files
    ensures disks[0].files == if 0 in existing then existing else existing[0 := []]
    ensures IsSuffix(Reading(files, 10), Reading(disks[0].files, 10) + lines)
  {
    var logger := new Logger(existing);
    disks := [logger.View()];
    for i := 0 to |lines|
      invariant logger.Valid() && fresh(logger) && |disks| == i + 1 && disks[i] == logger.View()
      invariant Sized(disks[0]) && disks[0].files == if 0 in existing then existing else existing[0 := []]
      invariant forall j :: 0 <= j < i ==> Written(disks[j], disks[j + 1], lines[j])
    {
      logger.WriteEntry(lines[i]);
      disks := disks + [logger.View()];
    }
    files := logger.files;
    HistoryKept(disks, lines);
  }
}
