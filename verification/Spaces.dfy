/** White space as the standard library trims it. */
module Spaces {
  predicate IsSpace(c: char) {
    var u := c as int;
    || 0x09 <= u <= 0x0D || u == 0x20 || u == 0x85 || u == 0xA0 || u == 0x1680
    || 0x2000 <= u <= 0x200A || u == 0x2028 || u == 0x2029 || u == 0x202F || u == 0x205F || u == 0x3000
  }

  // The code points with the property White_Space of Unicode in its basic plane.
  lemma SpaceExactly(c: char)
    ensures IsSpace(c) <==>
            c as int in {0x09, 0x0A, 0x0B, 0x0C, 0x0D, 0x20, 0x85, 0xA0, 0x1680,
                         0x2000, 0x2001, 0x2002, 0x2003, 0x2004, 0x2005, 0x2006, 0x2007, 0x2008, 0x2009, 0x200A,
                         0x2028, 0x2029, 0x202F, 0x205F, 0x3000}
  {
  }

  predicate Blank(text: string) {
    forall i :: 0 <= i < |text| ==> IsSpace(text[i])
  }

  function TrimLeft(s: string): (t: string)
    ensures t == "" || !IsSpace(t[0])
  {
    if s != "" && IsSpace(s[0]) then TrimLeft(s[1..]) else s
  }

  function TrimRight(s: string): (t: string)
    ensures t <= s && (t == "" || !IsSpace(t[|t| - 1]))
  {
    if s != "" && IsSpace(s[|s| - 1]) then TrimRight(s[..|s| - 1]) else s
  }

  function Trim(s: string): string {
    TrimRight(TrimLeft(s))
  }

  // Trimming takes white space off both ends and leaves none there.
  lemma {:induction false} TrimLeftExactly(s: string) returns (lead: string)
    ensures s == lead + TrimLeft(s) && Blank(lead)
    decreases |s|
  {
    hide IsSpace;
    if s != "" && IsSpace(s[0]) {
      lead := TrimLeftExactly(s[1..]);
      lead := [s[0]] + lead;
      assert s == [s[0]] + s[1..];
    } else {
      lead := "";
    }
  }

  lemma {:induction false} TrimRightExactly(s: string) returns (trail: string)
    ensures s == TrimRight(s) + trail && Blank(trail)
    decreases |s|
  {
    hide IsSpace;
    if s != "" && IsSpace(s[|s| - 1]) {
      trail := TrimRightExactly(s[..|s| - 1]);
      trail := trail + [s[|s| - 1]];
      assert s == s[..|s| - 1] + [s[|s| - 1]];
    } else {
      trail := "";
    }
  }

  // Trimming the left side stops at the first character that is no white space, and trimming the
  // right side before the last.
  lemma {:induction false} TrimLeftSkips(s: string, n: nat)
    requires n < |s| && Blank(s[..n]) && !IsSpace(s[n])
    ensures TrimLeft(s) == s[n..]
    decreases n
  {
    if n > 0 {
      assert s[..n][0] == s[0] && s[..n][1..] == s[1..][..n - 1];
      TrimLeftSkips(s[1..], n - 1);
    }
  }

  lemma {:induction false} TrimRightKeeps(s: string, n: nat)
    requires n < |s| && !IsSpace(s[n])
    ensures s[..n + 1] <= TrimRight(s)
    decreases |s|
  {
    if IsSpace(s[|s| - 1]) {
      TrimRightKeeps(s[..|s| - 1], n);
      assert s[..|s| - 1][..n + 1] == s[..n + 1];
    }
  }

  lemma TrimExactly(s: string) returns (lead: string, trail: string)
    ensures s == lead + Trim(s) + trail && Blank(lead) && Blank(trail)
    ensures Trim(s) != "" ==> !IsSpace(Trim(s)[0]) && !IsSpace(Trim(s)[|Trim(s)| - 1])
    ensures Trim(s) == "" <==> Blank(s)
  {
    lead := TrimLeftExactly(s);
    trail := TrimRightExactly(TrimLeft(s));
    var t := Trim(s);
    assert t <= TrimLeft(s);
    if t != "" {
      assert s[|lead|] == t[0];
    } else {
      assert s == lead + trail;
    }
  }
}
