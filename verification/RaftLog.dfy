/**
 * raft/log.py: the log held in memory, with its snapshot base, and the file it is written to.
 * The file is the sequence of its JSON lines; a line is either the header that a rewrite puts
 * first or one entry.
 */
module RaftLogFile {
  import opened Wrappers
  import opened RaftProtocol

  datatype Line = Header(lastIndex: nat, lastTerm: nat) | Item(entry: LogEntry)

  // What the object holds, and what a load rebuilds.
  datatype Image = Image(base: nat, baseTerm: nat, entries: Log)

  const EMPTY_IMAGE: Image := Image(0, 0, [])

  function ToLines(entries: Log): (lines: seq<Line>)
    ensures |lines| == |entries|
    ensures forall k :: 0 <= k < |entries| ==> lines[k] == Item(entries[k])
  {
    seq(|entries|, i requires 0 <= i < |entries| => Item(entries[i]))
  }

  // Reading entry lines; a header among them has no entry fields and raises.
  function FromLines(lines: seq<Line>): Option<Log> {
    if lines == [] then Some([])
    else if lines[0].Header? then None
    else
      match FromLines(lines[1..])
      case None => None
      case Some(rest) => Some([lines[0].entry] + rest)
  }

  // _load on the lines of an existing file.
  function Load(lines: seq<Line>): Option<Image> {
    if lines == [] then Some(EMPTY_IMAGE)
    else
      var (base, baseTerm, body) :=
        if lines[0].Header? then (lines[0].lastIndex, lines[0].lastTerm, lines[1..]) else (0, 0, lines);
      match FromLines(body)
      case None => None
      case Some(entries) => Some(Image(base, baseTerm, entries))
  }

  // _rewrite
  function Rewritten(image: Image): seq<Line> {
    [Header(image.base, image.baseTerm)] + ToLines(image.entries)
  }

  lemma {:induction false} FromToLines(entries: Log)
    ensures FromLines(ToLines(entries)) == Some(entries)
  {
    if entries != [] {
      assert ToLines(entries)[1..] == ToLines(entries[1..]);
      FromToLines(entries[1..]);
      assert entries == [entries[0]] + entries[1..];
    }
  }

  // A rewritten file loads to exactly what was in memory.
  lemma LoadRewritten(image: Image)
    ensures Load(Rewritten(image)) == Some(image)
  {
    assert Rewritten(image)[1..] == ToLines(image.entries);
    FromToLines(image.entries);
  }

  lemma {:induction false} FromLinesAppend(lines: seq<Line>, more: Log)
    requires FromLines(lines).Some?
    ensures FromLines(lines + ToLines(more)) == Some(FromLines(lines).value + more)
  {
    if lines == [] {
      assert lines + ToLines(more) == ToLines(more);
      FromToLines(more);
      assert [] + more == more;
    } else {
      assert (lines + ToLines(more))[1..] == lines[1..] + ToLines(more);
      FromLinesAppend(lines[1..], more);
      var rest := FromLines(lines[1..]).value;
      assert [lines[0].entry] + (rest + more) == ([lines[0].entry] + rest) + more;
    }
  }

  // Lines added one by one load to the entries added, on top of whatever was there.
  lemma LoadAppended(lines: seq<Line>, more: Log)
    requires Load(lines).Some?
    ensures Load(lines + ToLines(more)) == Some(Load(lines).value.(entries := Load(lines).value.entries + more))
  {
    if lines == [] {
      assert lines + ToLines(more) == ToLines(more);
      assert [] + more == more;
      FromToLines(more);
    } else if lines[0].Header? {
      assert (lines + ToLines(more))[1..] == lines[1..] + ToLines(more);
      FromLinesAppend(lines[1..], more);
    } else {
      FromLinesAppend(lines, more);
      assert (lines + ToLines(more))[0] == lines[0];
    }
  }

  // The entry at position k has index base + k + 1.
  predicate WellIndexed(image: Image) {
    forall k :: 0 <= k < |image.entries| ==> image.entries[k].index == image.base + k + 1
  }

  // The log as the partial map from index to entry that its callers see.
  function Contents(image: Image): (m: map<nat, LogEntry>)
    ensures forall i :: i in m <==> image.base < i <= image.base + |image.entries|
    ensures forall i :: i in m ==> m[i] == image.entries[i - image.base - 1]
  {
    map i: nat | image.base < i <= image.base + |image.entries| && Held(image, i) :: image.entries[i - image.base - 1]
  }

  predicate Held(image: Image, i: nat) {
    image.base < i <= image.base + |image.entries|
  }

  // Python's list[cut:], negative cuts counting from the end.
  function SliceFrom(entries: Log, cut: int): Log {
    if cut >= |entries| then []
    else if cut >= 0 then entries[cut..]
    else if -cut >= |entries| then entries
    else entries[|entries| + cut..]
  }

  function SnapshotImage(image: Image, lastIndex: nat, lastTerm: nat): Image {
    Image(lastIndex, lastTerm, SliceFrom(image.entries, lastIndex - image.base))
  }

  // A snapshot behind the base shifts the entries off their indices, through the negative slice;
  // a snapshot at or past the base never does.
  lemma SnapshotIsSoundIff(image: Image, lastIndex: nat, lastTerm: nat)
    requires WellIndexed(image)
    ensures WellIndexed(SnapshotImage(image, lastIndex, lastTerm)) <==> lastIndex >= image.base || image.entries == []
    ensures lastIndex >= image.base ==>
      Contents(SnapshotImage(image, lastIndex, lastTerm)) ==
      map i | i in Contents(image) && i > lastIndex :: Contents(image)[i]
  {
    var after := SnapshotImage(image, lastIndex, lastTerm);
    if lastIndex < image.base && image.entries != [] {
      assert after.entries[0].index != after.base + 1;
    }
  }

  class RaftLog {
    var entries: Log
    var snapshotLastIndex: nat
    var snapshotLastTerm: nat
    const durable: bool
    // The lines on disk, once the file exists.
    var file: Option<seq<Line>>

    function InMemory(): Image
      reads this
    {
      Image(snapshotLastIndex, snapshotLastTerm, entries)
    }

    // A restart right now would find everything this object holds.
    ghost predicate Saved()
      reads this
    {
      if durable then Load(file.GetOr([])) == Some(InMemory()) else file == None
    }

    ghost predicate Valid()
      reads this
    {
      Saved() && WellIndexed(InMemory())
    }

    constructor (durable: bool, file: Option<seq<Line>>)
      requires durable || file == None
      requires Load(file.GetOr([])).Some?
      ensures this.durable == durable && this.file == file && Saved()
      ensures InMemory() == Load(file.GetOr([])).value
    {
      this.durable := durable;
      this.file := file;
      var image := Load(file.GetOr([])).value;
      entries, snapshotLastIndex, snapshotLastTerm := image.entries, image.base, image.baseTerm;
    }

    // Opening a log raises on a file that does not load, and else holds what the file says.
    static method Open(durable: bool, file: Option<seq<Line>>) returns (log: RaftLog?)
      requires durable || file == None
      ensures log == null <==> Load(file.GetOr([])).None?
      ensures log != null ==>
                fresh(log) && log.durable == durable && log.file == file && log.Saved() &&
                log.InMemory() == Load(file.GetOr([])).value
    {
      if Load(file.GetOr([])).None? {
        return null;
      }
      log := new RaftLog(durable, file);
    }

    // ---- reads ------------------------------------------------------------------------------

    function LastIndex(): (r: nat)
      requires Valid()
      reads this
      ensures r == snapshotLastIndex + |entries|
    {
      if entries == [] then snapshotLastIndex else entries[|entries| - 1].index
    }

    function LastTermRead(): (r: nat)
      reads this
    {
      if entries == [] then snapshotLastTerm else entries[|entries| - 1].term
    }

    function Get(index: int): (r: Option<LogEntry>)
      reads this
      ensures r == if index >= 0 && index in Contents(InMemory()) then Some(Contents(InMemory())[index]) else None
    {
      var pos := index - snapshotLastIndex - 1;
      if pos < 0 || pos >= |entries| then None else Some(entries[pos])
    }

    // At or below the base the answer is only the base's own term.
    function TermAtRead(index: nat): (r: nat)
      reads this
      ensures index in Contents(InMemory()) ==> r == Contents(InMemory())[index].term
      ensures index > snapshotLastIndex + |entries| || index == 0 ==> r == 0
      ensures 0 < index <= snapshotLastIndex ==> r == snapshotLastTerm
    {
      if index == 0 then 0
      else if index <= snapshotLastIndex then snapshotLastTerm
      else
        match Get(index)
        case None => 0
        case Some(entry) => entry.term
    }

    function EntriesFrom(start: int): (r: Log)
      requires Valid()
      reads this
      ensures |r| == Max(0, Min(|entries|, snapshotLastIndex + |entries| + 1 - start))
      ensures forall k :: 0 <= k < |r| ==>
        r[k].index == Max(start, snapshotLastIndex + 1) + k &&
        r[k].index in Contents(InMemory()) && r[k] == Contents(InMemory())[r[k].index]
    {
      var idx := start - snapshotLastIndex - 1;
      SliceFrom(entries, if idx < 0 then 0 else idx)
    }

    // ---- writes -----------------------------------------------------------------------------

    method Append(entry: LogEntry)
      requires Saved()
      modifies this
      ensures Saved()
      ensures InMemory() == old(InMemory()).(entries := old(entries) + [entry])
      ensures old(Valid()) && entry.index == old(snapshotLastIndex + |entries|) + 1 ==>
        Valid() && Contents(InMemory()) == old(Contents(InMemory()))[entry.index := entry]
    {
      entries := entries + [entry];
      PersistEntry(entry);
      assert ToLines([entry]) == [Item(entry)];
      LoadAppended(old(file).GetOr([]), [entry]);
    }

    // One more line; the file comes into being with its first line.
    method PersistEntry(entry: LogEntry)
      requires durable || file == None
      modifies this`file
      ensures file == if durable then Some(old(file).GetOr([]) + [Item(entry)]) else None
    {
      if durable {
        file := Some(file.GetOr([]) + [Item(entry)]);
      }
    }

    method AppendAll(more: Log)
      requires Saved()
      modifies this
      ensures Saved()
      ensures InMemory() == old(InMemory()).(entries := old(entries) + more)
      ensures
        old(Valid()) &&
        (forall k :: 0 <= k < |more| ==> more[k].index == old(snapshotLastIndex + |entries|) + k + 1) ==>
        Valid()
    {
      entries := entries + more;
      var n := 0;
      assert more[..0] == [] && entries == old(entries) + more;
      while n < |more|
        invariant n <= |more| && (durable || file == None)
        invariant InMemory() == old(InMemory()).(entries := old(entries) + more)
        invariant durable ==> file.GetOr([]) == old(file).GetOr([]) + ToLines(more[..n])
      {
        PersistEntry(more[n]);
        assert ToLines(more[..n + 1]) == ToLines(more[..n]) + [Item(more[n])];
        n := n + 1;
      }
      assert more[..n] == more;
      if durable {
        LoadAppended(old(file).GetOr([]), more);
      }
    }

    method TruncateFrom(index: int)
      requires Saved()
      modifies this
      ensures Saved()
      ensures InMemory() ==
        old(InMemory()).(entries := old(entries)[..Max(0, Min(index - old(snapshotLastIndex) - 1, |old(entries)|))])
      ensures old(Valid()) ==> Valid()
      ensures Contents(InMemory()) ==
        map i | i in old(Contents(InMemory())) && i < index :: old(Contents(InMemory()))[i]
    {
      var keep := index - snapshotLastIndex - 1;
      if keep < 0 {
        keep := 0;
      }
      entries := if keep <= |entries| then entries[..keep] else entries;
      Rewrite();
    }

    method Snapshot(lastIndex: nat, lastTerm: nat)
      requires Saved()
      modifies this
      ensures Saved()
      ensures InMemory() == SnapshotImage(old(InMemory()), lastIndex, lastTerm)
      ensures old(Valid()) ==> (Valid() <==> lastIndex >= old(snapshotLastIndex) || old(entries) == [])
    {
      ghost var before := InMemory();
      if WellIndexed(before) {
        SnapshotIsSoundIff(before, lastIndex, lastTerm);
      }
      entries := SliceFrom(entries, lastIndex - snapshotLastIndex);
      snapshotLastIndex, snapshotLastTerm := lastIndex, lastTerm;
      Rewrite();
    }

    method Rewrite()
      requires durable || file == None
      modifies this`file
      ensures Saved()
    {
      if durable {
        var lines := [Header(snapshotLastIndex, snapshotLastTerm)];
        var n := 0;
        while n < |entries|
          invariant n <= |entries|
          invariant lines == [Header(snapshotLastIndex, snapshotLastTerm)] + ToLines(entries[..n])
        {
          lines := lines + [Item(entries[n])];
          n := n + 1;
        }
        assert entries[..n] == entries;
        LoadRewritten(InMemory());
        file := Some(lines);
      }
    }
  }
}
