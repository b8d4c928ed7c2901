// The rotated log files on disk: generation 0 is the current file, higher ones are older.
module JsonlFiles {

  type Line = seq<bv8>

  type Files = map<nat, seq<bv8>>

  function Flatten(lines: seq<Line>): (r: seq<bv8>)
  {
    if lines == [] then [] else lines[0] + Flatten(lines[1..])
  }

  lemma {:induction false} FlattenAppend(lines: seq<Line>, line: Line)
    ensures Flatten(lines + [line]) == Flatten(lines) + line
  {
    if lines == [] {
      assert Flatten([line]) == line + Flatten([]);
    } else {
      assert (lines + [line])[1..] == lines[1..] + [line];
      FlattenAppend(lines[1..], line);
    }
  }

  // Which whole lines every generation holds.
  type Layout = seq<seq<Line>>

  // The lines of all generations, the oldest first.
  function Chronological(layout: Layout): (r: seq<Line>)
  {
    if layout == [] then [] else Chronological(layout[1..]) + layout[0]
  }

  // The bytes of all files, the oldest first, as a reader would join them.
  function Joined(files: Files, generations: nat): (r: seq<bv8>)
  {
    (if generations in files then files[generations] else [])
      + if generations == 0 then [] else Joined(files, generations - 1)
  }

  ghost predicate Holds(files: Files, layout: Layout, g: nat)
    requires g < |layout|
  {
    g in files && files[g] == Flatten(layout[g]) && NoneEmpty(layout[g])
  }

  // A file is within the bound or holds one line that does not fit any file.
  ghost predicate Bounded(layout: Layout, rotationBytes: nat, g: nat)
    requires g < |layout|
  {
    |Flatten(layout[g])| <= rotationBytes || |layout[g]| == 1
  }

  predicate NoneEmpty(lines: seq<Line>)
  {
    forall line :: line in lines ==> line != []
  }

  // The files are exactly the generations of the layout.
  ghost predicate LaidOut(files: Files, layout: Layout, rotationBytes: nat, rotationCount: nat)
  {
    && |layout| <= rotationCount + 1
    && (forall g :: g in files ==> g < |layout|)
    && (forall g :: 0 <= g < |layout| ==> Holds(files, layout, g))
    && (forall g :: 0 <= g < |layout| ==> Bounded(layout, rotationBytes, g))
  }

  ghost predicate IsSuffix<T>(s: seq<T>, all: seq<T>)
  {
    exists k: nat :: StartsAt(s, all, k)
  }

  predicate StartsAt<T(==)>(s: seq<T>, all: seq<T>, k: nat)
  {
    k <= |all| && s == all[k..]
  }

  lemma SuffixOfSuffix<T>(a: seq<T>, b: seq<T>, c: seq<T>)
    requires IsSuffix(a, b) && IsSuffix(b, c)
    ensures IsSuffix(a, c)
  {
    var j: nat :| StartsAt(a, b, j);
    var k: nat :| StartsAt(b, c, k);
    assert StartsAt(a, c, j + k);
  }

  lemma SuffixOneMore<T>(s: seq<T>, all: seq<T>, x: T)
    requires IsSuffix(s, all)
    ensures IsSuffix(s + [x], all + [x])
  {
    var k: nat :| StartsAt(s, all, k);
    assert StartsAt(s + [x], all + [x], k);
  }

  /******* Steps *******/

  lemma AppendKeepsLayout(files: Files, layout: Layout, line: Line, rotationBytes: nat, rotationCount: nat)
    requires layout != [] && LaidOut(files, layout, rotationBytes, rotationCount) && line != []
    requires 0 in files && (files[0] == [] || |files[0]| + |line| <= rotationBytes)
    ensures var next := layout[0 := layout[0] + [line]];
      LaidOut(files[0 := files[0] + line], next, rotationBytes, rotationCount)
      && Chronological(next) == Chronological(layout) + [line]
  {
    var next := layout[0 := layout[0] + [line]];
    var after := files[0 := files[0] + line];
    FlattenAppend(layout[0], line);
    assert Holds(files, layout, 0);
    if layout[0] != [] { WholeLinesTakeRoom(layout[0]); }
    forall g | 0 <= g < |next|
      ensures Holds(after, next, g)
    {
      assert Holds(files, layout, g);
    }
    forall g | 0 <= g < |next|
      ensures Bounded(next, rotationBytes, g)
    {
      assert Bounded(layout, rotationBytes, g);
    }
    assert Chronological(next) == Chronological(layout[1..]) + next[0] by { assert next[1..] == layout[1..]; }
    assert Chronological(layout) + [line] == Chronological(layout[1..]) + (layout[0] + [line]);
  }

  lemma WholeLinesTakeRoom(lines: seq<Line>)
    requires lines != [] && NoneEmpty(lines)
    ensures Flatten(lines) != []
  {
    assert lines[0] in lines;
  }

  lemma CurrentIsThere(files: Files, layout: Layout, rotationBytes: nat, rotationCount: nat)
    requires LaidOut(files, layout, rotationBytes, rotationCount) && layout != []
    ensures 0 in files
  {
    assert Holds(files, layout, 0);
  }

  lemma BoundedOrSingle(files: Files, layout: Layout, rotationBytes: nat, rotationCount: nat, g: nat)
    requires LaidOut(files, layout, rotationBytes, rotationCount) && g in files
    ensures g < |layout|
    ensures |files[g]| <= rotationBytes || (|layout[g]| == 1 && files[g] == layout[g][0])
  {
    assert Holds(files, layout, g) && Bounded(layout, rotationBytes, g);
    if |layout[g]| == 1 { assert Flatten(layout[g]) == layout[g][0] + Flatten([]); }
  }

  predicate Moves(files: Files, g: nat)
  {
    0 < g && g - 1 in files
  }

  function Moved(files: Files, g: nat): (r: seq<bv8>)
    requires Moves(files, g)
  {
    files[g - 1]
  }

  // Every generation moves up by one; the oldest falls off.
  function Rotated(files: Files, rotationCount: nat): (r: Files)
  {
    (map g | g in files && rotationCount < g :: files[g])
      + map g: nat | g <= rotationCount && Moves(files, g) :: Moved(files, g)
  }

  // One rename, when there is a file to rename.
  function Renamed(files: Files, g: nat): (r: Files)
  {
    if g in files then (files - {g})[g + 1 := files[g]] else files
  }

  // The renames from a generation down to the current file.
  function RenamedDown(files: Files, g: nat): (r: Files)
    decreases g
  {
    if g == 0 then Renamed(files, 0) else RenamedDown(Renamed(files, g), g - 1)
  }

  // With the place above `g` free, they move every generation up to `g` by one.
  lemma {:induction false} RenamedDownMovesAll(files: Files, g: nat, h: nat)
    requires g + 1 !in files
    ensures h in RenamedDown(files, g) <==> (if h <= g + 1 then Moves(files, h) else h in files)
    ensures h in RenamedDown(files, g) ==>
      RenamedDown(files, g)[h] == if h <= g + 1 then Moved(files, h) else files[h]
    decreases g
  {
    if 0 < g {
      RenamedDownMovesAll(Renamed(files, g), g - 1, h);
    }
  }

  // Deleting the oldest generation first, they are the rotation.
  lemma RotationIsRenaming(files: Files, rotationCount: nat)
    requires 0 < rotationCount
    ensures RenamedDown(files - {rotationCount}, rotationCount - 1) == Rotated(files, rotationCount)
  {
    var renamed := RenamedDown(files - {rotationCount}, rotationCount - 1);
    var rotated := Rotated(files, rotationCount);
    forall h: nat
      ensures h in renamed <==> h in rotated
      ensures h in renamed ==> renamed[h] == rotated[h]
    {
      RenamedDownMovesAll(files - {rotationCount}, rotationCount - 1, h);
    }
  }

  function Shifted(layout: Layout, rotationCount: nat): (r: Layout)
  {
    [[]] + if |layout| <= rotationCount then layout else layout[..rotationCount]
  }

  lemma RotationHolds(files: Files, layout: Layout, rotationBytes: nat, rotationCount: nat, g: nat)
    requires LaidOut(files, layout, rotationBytes, rotationCount) && g < |Shifted(layout, rotationCount)|
    ensures Holds(Rotated(files, rotationCount)[0 := []], Shifted(layout, rotationCount), g)
    ensures Bounded(Shifted(layout, rotationCount), rotationBytes, g)
  {
    if 0 < g {
      assert Holds(files, layout, g - 1) && Bounded(layout, rotationBytes, g - 1);
      assert Moves(files, g) && Rotated(files, rotationCount)[g] == Moved(files, g);
    }
  }

  // A rotation forgets the oldest generation and starts an empty one.
  lemma RotationKeepsLayout(files: Files, layout: Layout, rotationBytes: nat, rotationCount: nat)
    requires LaidOut(files, layout, rotationBytes, rotationCount) && 0 < rotationCount
    ensures LaidOut(Rotated(files, rotationCount)[0 := []], Shifted(layout, rotationCount),
                    rotationBytes, rotationCount)
    ensures IsSuffix(Chronological(Shifted(layout, rotationCount)), Chronological(layout))
  {
    var next := Shifted(layout, rotationCount);
    var after := Rotated(files, rotationCount)[0 := []];
    forall g | 0 <= g < |next|
      ensures Holds(after, next, g)
    {
      RotationHolds(files, layout, rotationBytes, rotationCount, g);
    }
    forall g | 0 <= g < |next|
      ensures Bounded(next, rotationBytes, g)
    {
      RotationHolds(files, layout, rotationBytes, rotationCount, g);
    }
    ShiftedIsSuffix(layout, rotationCount);
  }

  lemma ShiftedIsSuffix(layout: Layout, rotationCount: nat)
    ensures IsSuffix(Chronological(Shifted(layout, rotationCount)), Chronological(layout))
  {
    var next := Shifted(layout, rotationCount);
    var n := if |layout| <= rotationCount then |layout| else rotationCount;
    assert next[1..] == layout[..n];
    assert Chronological(next) == Chronological(layout[..n]) + [];
    assert Chronological(next) == Chronological(layout[..n]);
    NewestAreSuffix(layout, n);
  }

  lemma SuffixAppend<T>(s: seq<T>, all: seq<T>, t: seq<T>)
    requires IsSuffix(s, all)
    ensures IsSuffix(s + t, all + t)
  {
    var k: nat :| StartsAt(s, all, k);
    assert StartsAt(s + t, all + t, k);
  }

  lemma {:induction false} NewestAreSuffix(layout: Layout, n: nat)
    requires n <= |layout|
    ensures IsSuffix(Chronological(layout[..n]), Chronological(layout))
    decreases n
  {
    if n == 0 {
      assert StartsAt([], Chronological(layout), |Chronological(layout)|);
    } else {
      NewestAreSuffix(layout[1..], n - 1);
      assert layout[..n][1..] == layout[1..][..n - 1];
      SuffixAppend(Chronological(layout[1..][..n - 1]), Chronological(layout[1..]), layout[0]);
    }
  }

  // The files with a current file, and with one that takes a line of this size.
  function Ready(files: Files, size: nat, rotationBytes: nat, rotationCount: nat): (r: Files)
    ensures 0 in r && (r[0] == [] || |r[0]| + size <= rotationBytes)
  {
    var current := if 0 in files then files else files[0 := []];
    if current[0] != [] && rotationBytes < |current[0]| + size
    then Rotated(current, rotationCount)[0 := []]
    else current
  }

  // The files are rotated exactly when the line would overflow a current file that holds
  // something; nothing else is done to them.
  lemma ReadyExact(files: Files, size: nat, rotationBytes: nat, rotationCount: nat)
    requires 0 in files
    ensures files[0] == [] || |files[0]| + size <= rotationBytes ==>
      Ready(files, size, rotationBytes, rotationCount) == files
    ensures files[0] != [] && rotationBytes < |files[0]| + size ==>
      Ready(files, size, rotationBytes, rotationCount) == Rotated(files, rotationCount)[0 := []]
    ensures Ready(files - {0}, size, rotationBytes, rotationCount) == files[0 := []]
  {
    assert (files - {0})[0 := []] == files[0 := []];
  }

  function Appended(files: Files, line: Line): (r: Files)
    requires 0 in files
  {
    files[0 := files[0] + line]
  }

  /******* What a reader sees *******/

  lemma {:induction false} OldestFirst(layout: Layout, oldest: seq<Line>)
    ensures Chronological(layout + [oldest]) == oldest + Chronological(layout)
    decreases |layout|
  {
    if layout == [] {
      assert ([] + [oldest])[1..] == [] && Chronological([oldest]) == Chronological([]) + oldest;
    } else {
      assert (layout + [oldest])[1..] == layout[1..] + [oldest];
      OldestFirst(layout[1..], oldest);
    }
  }

  lemma {:induction false} FlattenConcat(a: seq<Line>, b: seq<Line>)
    ensures Flatten(a + b) == Flatten(a) + Flatten(b)
    decreases |a|
  {
    if a == [] {
      assert a + b == b;
    } else {
      assert (a + b)[1..] == a[1..] + b;
      FlattenConcat(a[1..], b);
    }
  }

  lemma OneGenerationMore(layout: Layout, g: nat)
    requires g < |layout|
    ensures Flatten(Chronological(layout[..g + 1])) == Flatten(layout[g]) + Flatten(Chronological(layout[..g]))
  {
    assert layout[..g + 1] == layout[..g] + [layout[g]];
    OldestFirst(layout[..g], layout[g]);
    FlattenConcat(layout[g], Chronological(layout[..g]));
  }

  lemma {:induction false} JoinedPrefix(files: Files, layout: Layout, g: nat)
    requires g < |layout| && forall h :: 0 <= h < |layout| ==> Holds(files, layout, h)
    ensures Joined(files, g) == Flatten(Chronological(layout[..g + 1]))
    decreases g
  {
    assert Holds(files, layout, g);
    OneGenerationMore(layout, g);
    if 0 < g {
      JoinedPrefix(files, layout, g - 1);
    } else {
      assert layout[..0] == [] && Flatten(Chronological([])) == [];
    }
  }

  lemma {:induction false} NothingBeyond(files: Files, count: nat, g: nat)
    requires count <= g && forall h :: h in files ==> h < count
    ensures Joined(files, g) == if count == 0 then [] else Joined(files, count - 1)
    decreases g
  {
    if count < g || (count == g && 0 < g) {
      assert g !in files;
      if count < g { NothingBeyond(files, count, g - 1); }
    }
  }

  // Reading the files from the oldest to the current gives the lines of the layout.
  lemma JoinedIsChronological(files: Files, layout: Layout, rotationBytes: nat, rotationCount: nat, g: nat)
    requires LaidOut(files, layout, rotationBytes, rotationCount)
    ensures Joined(files, g) == Flatten(Chronological(if g < |layout| then layout[..g + 1] else layout))
  {
    if g < |layout| {
      JoinedPrefix(files, layout, g);
    } else {
      NothingBeyond(files, |layout|, g);
      if layout != [] {
        JoinedPrefix(files, layout, |layout| - 1);
        assert layout[..|layout| - 1 + 1] == layout;
      }
    }
  }
}
