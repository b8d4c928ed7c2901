// Cleaning of untrusted text: line ends unified, control characters removed, space stripped
// at both ends.
module TextCleaning {

  // The characters that stripping removes.
  predicate IsSpace(c: char)
  {
    var n := c as int;
    || 0x09 <= n <= 0x0d || 0x1c <= n <= 0x20 || n == 0x85 || n == 0xa0 || n == 0x1680
    || 0x2000 <= n <= 0x200a || n in {0x2028, 0x2029, 0x202f, 0x205f, 0x3000}
  }

  predicate IsControl(c: char)
  {
    (c as int) < 32 && c != '\t' && c != '\n'
  }

  // "\r\n" and then every other "\r" become "\n".
  function Unified(s: string): (r: string)
    ensures '\r' !in r
  {
    if s == [] then []
    else if s[0] == '\r' then "\n" + Unified(if 1 < |s| && s[1] == '\n' then s[2..] else s[1..])
    else [s[0]] + Unified(s[1..])
  }

  function Visible(s: string): (r: string)
    ensures forall c :: c in r <==> c in s && !IsControl(c)
  {
    if s == [] then []
    else Visible(s[..|s| - 1]) + Shown(s[|s| - 1])
  }

  function Shown(c: char): (r: string)
  {
    if IsControl(c) then [] else [c]
  }

  function ControlCount(s: string): (r: nat)
  {
    if s == [] then 0 else ControlCount(s[..|s| - 1]) + if IsControl(s[|s| - 1]) then 1 else 0
  }

  function StripLeft(s: string): (r: string)
    ensures r == [] || !IsSpace(r[0])
    ensures forall c :: c in r ==> c in s
  {
    if s == [] || !IsSpace(s[0]) then s else StripLeft(s[1..])
  }

  function StripRight(s: string): (r: string)
    ensures r == [] || (s != [] && !IsSpace(r[|r| - 1]) && r[0] == s[0])
    ensures forall c :: c in r ==> c in s
  {
    if s == [] || !IsSpace(s[|s| - 1]) then s else StripRight(s[..|s| - 1])
  }

  function Cleaned(s: string): (r: string)
  {
    StripRight(StripLeft(Visible(Unified(s))))
  }

  function Removed(s: string): (r: nat)
  {
    ControlCount(Unified(s))
  }

  // Text that cleaning has nothing to do with.
  predicate IsClean(s: string)
  {
    && (forall c :: c in s ==> !IsControl(c))
    && (s == [] || (!IsSpace(s[0]) && !IsSpace(s[|s| - 1])))
  }

  lemma CleanedIsClean(s: string)
    ensures IsClean(Cleaned(s))
    ensures forall c :: c in Cleaned(s) ==> 32 <= c as int || c == '\t' || c == '\n'
    ensures Cleaned(s) != "" ==>
      Cleaned(s)[0] !in {' ', '\t', '\n'} && Cleaned(s)[|Cleaned(s)| - 1] !in {' ', '\t', '\n'}
  {
    var visible := Visible(Unified(s));
    var left := StripLeft(visible);
    assert forall c :: c in Cleaned(s) ==> c in left;
  }

  lemma {:induction false} UnifiedKeeps(s: string)
    requires '\r' !in s
    ensures Unified(s) == s
  {
    if s != [] {
      assert s[0] in s;
      UnifiedKeeps(s[1..]);
    }
  }

  lemma {:induction false} VisibleKeeps(s: string)
    requires forall c :: c in s ==> !IsControl(c)
    ensures Visible(s) == s && ControlCount(s) == 0
  {
    if s != [] {
      var front := s[..|s| - 1];
      assert s == front + [s[|s| - 1]] && s[|s| - 1] in s;
      VisibleKeeps(front);
    }
  }

  // Clean text is exactly what cleaning leaves alone.
  lemma CleaningIsIdempotent(s: string)
    ensures IsClean(s) <==> Cleaned(s) == s
    ensures IsClean(s) ==> Removed(s) == 0
  {
    if IsClean(s) {
      assert IsControl('\r');
      UnifiedKeeps(s);
      VisibleKeeps(s);
    } else {
      CleanedIsClean(s);
    }
  }

  // What prints is kept: letters, digits and signs at both ends, and between them besides
  // these every space, tab and line end.
  lemma PrintableIsKept(s: string)
    requires s != "" ==> '!' <= s[0] <= '~' && '!' <= s[|s| - 1] <= '~'
    requires forall c :: c in s ==> ' ' <= c || c == '\t' || c == '\n'
    ensures Cleaned(s) == s && Removed(s) == 0
  {
    CleaningIsIdempotent(s);
  }

  /******* Nothing else is lost *******/

  // The first replacement: a carriage return before a line end goes.
  function WithoutCrLf(s: string): (r: string)
  {
    if s == [] then []
    else if 1 < |s| && s[0] == '\r' && s[1] == '\n' then "\n" + WithoutCrLf(s[2..])
    else [s[0]] + WithoutCrLf(s[1..])
  }

  // The second: every carriage return left becomes a line end.
  function CrToLf(s: string): (r: string)
  {
    seq(|s|, i requires 0 <= i < |s| => if s[i] == '\r' then '\n' else s[i])
  }

  // Unifying is the two replacements one after the other.
  lemma {:induction false} UnifyingIsReplacing(s: string)
    ensures Unified(s) == CrToLf(WithoutCrLf(s))
  {
    if s == [] {
    } else if 1 < |s| && s[0] == '\r' && s[1] == '\n' {
      UnifyingIsReplacing(s[2..]);
      assert CrToLf("\n" + WithoutCrLf(s[2..])) == "\n" + CrToLf(WithoutCrLf(s[2..]));
    } else {
      UnifyingIsReplacing(s[1..]);
      assert CrToLf([s[0]] + WithoutCrLf(s[1..])) == CrToLf([s[0]]) + CrToLf(WithoutCrLf(s[1..]));
    }
  }

  // Removing controls is done character by character, and what is removed is counted.
  lemma {:induction false} RemovingControlsJoins(a: string, b: string)
    ensures Visible(a + b) == Visible(a) + Visible(b)
  {
    if b == [] {
      assert a + b == a;
    } else {
      var front, last := b[..|b| - 1], b[|b| - 1];
      RemovingControlsJoins(a, front);
      assert (a + b)[..|a + b| - 1] == a + front && (a + b)[|a + b| - 1] == last;
      assert (Visible(a) + Visible(front)) + Shown(last) == Visible(a) + (Visible(front) + Shown(last));
    }
  }

  lemma {:induction false} ControlsAreCounted(s: string)
    ensures |Visible(s)| + ControlCount(s) == |s|
  {
    if s != [] { ControlsAreCounted(s[..|s| - 1]); }
  }

  predicate AllSpace(s: string)
  {
    forall c :: c in s ==> IsSpace(c)
  }

  lemma {:induction false} LeftIsSpace(s: string) returns (lead: string)
    ensures s == lead + StripLeft(s) && AllSpace(lead)
  {
    lead := "";
    if s != [] && IsSpace(s[0]) {
      lead := LeftIsSpace(s[1..]);
      assert s == [s[0]] + s[1..];
      lead := [s[0]] + lead;
    }
  }

  lemma {:induction false} RightIsSpace(s: string) returns (trail: string)
    ensures s == StripRight(s) + trail && AllSpace(trail)
  {
    trail := "";
    if s != [] && IsSpace(s[|s| - 1]) {
      trail := RightIsSpace(s[..|s| - 1]);
      assert s == s[..|s| - 1] + [s[|s| - 1]];
      trail := trail + [s[|s| - 1]];
    }
  }

  lemma StrippingTakesSpace(s: string) returns (lead: string, trail: string)
    ensures s == lead + StripRight(StripLeft(s)) + trail && AllSpace(lead) && AllSpace(trail)
    ensures |s| == |lead| + |StripRight(StripLeft(s))| + |trail|
  {
    lead := LeftIsSpace(s);
    trail := RightIsSpace(StripLeft(s));
  }

  // What cleaning takes from the visible text is space at its two ends.
  lemma CleaningStripsSpace(s: string) returns (lead: string, trail: string)
    ensures Visible(Unified(s)) == lead + Cleaned(s) + trail && AllSpace(lead) && AllSpace(trail)
    ensures |Unified(s)| == |lead| + |Cleaned(s)| + |trail| + Removed(s)
  {
    lead, trail := StrippingTakesSpace(Visible(Unified(s)));
    ControlsAreCounted(Unified(s));
  }

  // One pass over the unified text.
  method CleanText(value: string) returns (text: string, removed: nat)
    ensures text == Cleaned(value) && removed == Removed(value)
  {
    var normalized := Unified(value);
    var characters := [];
    removed := 0;
    for i := 0 to |normalized|
      invariant characters == Visible(normalized[..i]) && removed == ControlCount(normalized[..i])
    {
      assert normalized[..i + 1][..i] == normalized[..i];
      if IsControl(normalized[i]) {
        removed := removed + 1;
      } else {
        characters := characters + [normalized[i]];
      }
    }
    assert normalized[..|normalized|] == normalized;
    text := StripRight(StripLeft(characters));
  }
}
