// The rotating log sink in its non-blocking mode: bounded admission, one writer, rotation
// before a line that would not fit.
module JsonlSinks {
  import opened JsonlFiles

  // What the system does to one write: nothing, or a failure at one of its points. A failed
  // write may leave part of the line behind.
  datatype Io = Fine | OpenFails | RotateFails | ReopenFails | WriteFails(partial: nat)

  class JsonlSink {
    const rotationBytes: nat
    const rotationCount: nat
    const queueSize: nat
    var files: Files
    var queue: seq<Line>
    var descriptorOpen: bool
    var currentSize: nat
    var closed: bool
    var accepted: nat
    var written: nat
    var dropped: nat
    var postClose: nat
    var failures: nat
    var rotations: nat
    var pending: int
    // Every line accepted and every line the writer has taken, and what the files hold.
    ghost var acceptedLines: seq<Line>
    ghost var takenLines: seq<Line>
    ghost var layout: Layout

    // Accepted lines are taken in order; none is lost between admission and the writer.
    ghost predicate Counted()
      reads this
    {
      && acceptedLines == takenLines + queue && NoneEmpty(acceptedLines)
      && accepted == |acceptedLines| && pending == |queue| <= queueSize
      && |takenLines| == written + failures
    }

    // Until a write fails, the files hold the most recent of the lines taken.
    ghost predicate Faithful()
      reads this
    {
      && LaidOut(files, layout, rotationBytes, rotationCount)
      && IsSuffix(Chronological(layout), takenLines)
    }

    ghost predicate DescriptorKnown()
      reads this
    {
      descriptorOpen ==> 0 in files && currentSize == |files[0]|
    }

    ghost predicate Valid()
      reads this
    {
      && 0 < rotationBytes && 0 < rotationCount && 0 < queueSize
      && Counted() && DescriptorKnown() && (failures == 0 ==> Faithful())
    }

    // An empty destination.
    constructor (rotationBytes: nat, rotationCount: nat, queueSize: nat)
      requires 0 < rotationBytes && 0 < rotationCount && 0 < queueSize
      ensures Valid() && files == map[] && acceptedLines == [] && !closed
    {
      this.rotationBytes, this.rotationCount, this.queueSize := rotationBytes, rotationCount, queueSize;
      files, queue, descriptorOpen, currentSize, closed := map[], [], false, 0, false;
      accepted, written, dropped, postClose, failures, rotations, pending := 0, 0, 0, 0, 0, 0, 0;
      acceptedLines, takenLines, layout := [], [], [];
      new;
      assert StartsAt(Chronological(layout), takenLines, 0);
    }

    // A full queue drops the new line; a closed sink only counts it.
    method Emit(line: Line)
      requires Valid() && line != []
      modifies this`queue, this`accepted, this`dropped, this`postClose, this`pending, this`acceptedLines
      ensures Valid()
      ensures closed ==>
        acceptedLines == old(acceptedLines) && postClose == old(postClose) + 1 && dropped == old(dropped)
      ensures !closed ==> postClose == old(postClose)
      ensures !closed && old(pending) == queueSize ==>
        acceptedLines == old(acceptedLines) && dropped == old(dropped) + 1
      ensures !closed && old(pending) < queueSize ==>
        acceptedLines == old(acceptedLines) + [line] && dropped == old(dropped)
    {
      if closed {
        postClose := postClose + 1;
        return;
      }
      if queueSize <= |queue| {
        dropped := dropped + 1;
        return;
      }
      queue := queue + [line];
      acceptedLines := acceptedLines + [line];
      accepted, pending := accepted + 1, pending + 1;
    }

    method Rename(generation: nat)
      modifies this`files
      ensures files == Renamed(old(files), generation)
    {
      if generation in files {
        files := (files - {generation})[generation + 1 := files[generation]];
      }
    }

    // Deletes the oldest generation and renames the others from the oldest down, the
    // current file last.
    method RotateFiles()
      requires 0 < rotationCount && 0 in files
      modifies this`files
      ensures files == Rotated(old(files), rotationCount)
    {
      RotationIsRenaming(files, rotationCount);
      files := files - {rotationCount};
      ghost var planned := RenamedDown(files, rotationCount - 1);
      var generation := rotationCount - 1;
      while 0 < generation
        invariant 0 <= generation < rotationCount
        invariant RenamedDown(files, generation) == planned
      {
        Rename(generation);
        generation := generation - 1;
      }
      Rename(0);
    }

    ghost predicate Laid()
      reads this`files, this`layout
    {
      LaidOut(files, layout, rotationBytes, rotationCount)
    }

    // Opens the current file, creating it empty.
    method OpenFile()
      modifies this`files, this`descriptorOpen, this`currentSize, this`layout
      ensures descriptorOpen && DescriptorKnown()
      ensures files == if 0 in old(files) then old(files) else old(files)[0 := []]
      ensures old(Laid()) ==> Laid() && Chronological(layout) == Chronological(old(layout))
    {
      if 0 !in files {
        if Laid() {
          if layout != [] { CurrentIsThere(files, layout, rotationBytes, rotationCount); }
          layout := [[]];
        }
        files := files[0 := []];
      }
      descriptorOpen, currentSize := true, |files[0]|;
    }

    // Closes the current file, moves every generation up and starts a new one.
    method RotateAndOpen(rotates: bool, reopens: bool) returns (ok: bool)
      requires 0 < rotationCount && 0 in files
      modifies this`files, this`descriptorOpen, this`currentSize, this`rotations, this`layout
      ensures DescriptorKnown() && ok == (rotates && reopens)
      ensures ok ==> descriptorOpen && currentSize == 0 && rotations == old(rotations) + 1
                     && files == Rotated(old(files), rotationCount)[0 := []]
      ensures ok && old(Laid()) ==> Laid() && IsSuffix(Chronological(layout), Chronological(old(layout)))
    {
      descriptorOpen := false;
      if !rotates {
        return false;
      }
      if Laid() { RotationKeepsLayout(files, layout, rotationBytes, rotationCount); }
      RotateFiles();
      if !reopens {
        return false;
      }
      ghost var shifted := Shifted(layout, rotationCount);
      OpenFile();
      layout := shifted;
      rotations := rotations + 1;
      ok := true;
    }

    // Makes the current file ready for a line, rotating first when the line would not fit.
    method Prepare(size: nat, io: Io) returns (ok: bool)
      requires 0 < rotationCount && DescriptorKnown()
      modifies this`files, this`descriptorOpen, this`currentSize, this`rotations, this`layout
      ensures DescriptorKnown() && (ok ==> descriptorOpen)
      ensures io.Fine? || io.WriteFails? ==> ok
      ensures ok ==> currentSize == 0 || currentSize + size <= rotationBytes
      ensures ok ==> files == Ready(old(files), size, rotationBytes, rotationCount)
      ensures ok && old(Laid()) ==> Laid() && IsSuffix(Chronological(layout), Chronological(old(layout)))
    {
      if !descriptorOpen {
        if io.OpenFails? {
          return false;
        }
        OpenFile();
      }
      ok := true;
      assert StartsAt(Chronological(layout), Chronological(layout), 0);
      if currentSize != 0 && rotationBytes < currentSize + size {
        ok := RotateAndOpen(!io.RotateFails?, !io.ReopenFails?);
      }
    }

    // Appends a line whole, or a part of it when the write fails.
    method Append(line: Line, io: Io) returns (ok: bool)
      requires DescriptorKnown() && descriptorOpen && line != []
      requires currentSize == 0 || currentSize + |line| <= rotationBytes
      modifies this`files, this`descriptorOpen, this`currentSize, this`layout
      ensures DescriptorKnown() && ok == !io.WriteFails?
      ensures ok ==> files == Appended(old(files), line)
      ensures ok && old(Laid()) ==> Laid() && Chronological(layout) == Chronological(old(layout)) + [line]
    {
      if io.WriteFails? {
        files := files[0 := files[0] + if io.partial <= |line| then line[..io.partial] else line];
        currentSize := |files[0]|;
        return false;
      }
      if Laid() {
        AppendKeepsLayout(files, layout, line, rotationBytes, rotationCount);
        layout := layout[0 := layout[0] + [line]];
      }
      files := files[0 := files[0] + line];
      currentSize := currentSize + |line|;
      ok := true;
    }

    // The writer takes the next line and writes it, or fails and closes the file.
    method WriterStep(io: Io)
      requires Valid() && queue != []
      modifies this`files, this`queue, this`descriptorOpen, this`currentSize, this`written, this`failures,
               this`rotations, this`pending, this`takenLines, this`layout
      ensures Valid()
      ensures takenLines == old(takenLines) + [old(queue)[0]] && queue == old(queue)[1..]
      ensures io.Fine? ==>
        && written == old(written) + 1 && failures == old(failures)
        && files == Appended(Ready(old(files), |old(queue)[0]|, rotationBytes, rotationCount), old(queue)[0])
      ensures written + failures == old(written + failures) + 1 && old(failures) <= failures
    {
      var line := queue[0];
      assert line in acceptedLines;
      queue := queue[1..];
      var ok := WriteLine(line, io);
      if ok {
        written := written + 1;
        if failures == 0 {
          SuffixOneMore(Chronological(old(layout)), takenLines, line);
          SuffixOfSuffix(Chronological(layout), Chronological(old(layout)) + [line], takenLines + [line]);
        }
      } else {
        failures := failures + 1;
        descriptorOpen := false;
      }
      pending := pending - 1;
      takenLines := takenLines + [line];
    }

    method WriteLine(line: Line, io: Io) returns (ok: bool)
      requires 0 < rotationCount && DescriptorKnown() && line != []
      modifies this`files, this`descriptorOpen, this`currentSize, this`rotations, this`layout
      ensures DescriptorKnown() && (io.Fine? ==> ok)
      ensures ok ==> files == Appended(Ready(old(files), |line|, rotationBytes, rotationCount), line)
      ensures ok && old(Laid()) ==> Laid() && IsSuffix(Chronological(layout), Chronological(old(layout)) + [line])
    {
      ok := Prepare(|line|, io);
      if ok {
        ghost var before := Chronological(layout);
        ok := Append(line, io);
        if ok && old(Laid()) { SuffixOneMore(before, Chronological(old(layout)), line); }
      }
    }

    // Admission stops and the writer drains every accepted line, whatever fails on the way.
    method Close(io: nat -> Io)
      requires Valid()
      modifies this
      ensures Valid() && closed && queue == [] && pending == 0
      ensures takenLines == acceptedLines == old(acceptedLines) && accepted == written + failures
      ensures (forall i :: io(i).Fine?) ==> failures == old(failures)
    {
      closed := true;
      while queue != []
        invariant Valid() && closed && acceptedLines == old(acceptedLines)
        invariant (forall i :: io(i).Fine?) ==> failures == old(failures)
        decreases |queue|
      {
        WriterStep(io(written + failures));
      }
      descriptorOpen := false;
    }

    // What a reader of the files sees while no write has failed: the most recent of the
    // accepted lines, whole, in order and once each, up to those still queued.
    lemma ReaderSeesRecentLines() returns (recent: seq<Line>)
      requires Valid() && failures == 0
      ensures Joined(files, rotationCount) == Flatten(recent)
      ensures IsSuffix(recent, acceptedLines[..|acceptedLines| - |queue|])
    {
      recent := Chronological(layout);
      JoinedIsChronological(files, layout, rotationBytes, rotationCount, rotationCount);
      assert layout[..|layout|] == layout;
      assert acceptedLines[..|acceptedLines| - |queue|] == takenLines;
    }

    // Every file is within the bound or holds one line of its own.
    lemma FilesAreBounded(g: nat)
      requires Valid() && failures == 0 && g in files
      ensures |files[g]| <= rotationBytes || exists line :: line in acceptedLines && files[g] == line
    {
      BoundedOrSingle(files, layout, rotationBytes, rotationCount, g);
      if rotationBytes < |files[g]| {
        LineIsChronological(layout, g);
        var line := layout[g][0];
        assert line in layout[g] && line in Chronological(layout);
        SuffixMember(Chronological(layout), takenLines, line);
        assert line in acceptedLines && files[g] == line;
      }
    }
  }

  lemma SuffixMember(s: seq<Line>, all: seq<Line>, line: Line)
    requires IsSuffix(s, all) && line in s
    ensures line in all
  {
    var k: nat :| StartsAt(s, all, k);
    assert line in all[k..];
  }

  lemma {:induction false} LineIsChronological(layout: Layout, g: nat)
    requires g < |layout|
    ensures forall line :: line in layout[g] ==> line in Chronological(layout)
    decreases g
  {
    if 0 < g { LineIsChronological(layout[1..], g - 1); }
  }
}
