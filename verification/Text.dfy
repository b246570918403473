/** White space at the ends of strings, for ASCII. */
module Text {

  predicate IsSpace(c: char) {
    c == ' ' || c == '\t' || c == '\n' || c == '\r' || c as int == 11 || c as int == 12
  }

  /** strings.TrimSpace. */
  function Trim(s: string): string {
    if s == "" then ""
    else if IsSpace(s[0]) then Trim(s[1..])
    else if IsSpace(s[|s| - 1]) then Trim(s[..|s| - 1])
    else s
  }

  /** The spaces are tab to carriage return, and the blank. */
  lemma SpaceMeans(c: char)
    ensures IsSpace(c) <==> 9 <= c as int <= 13 || c as int == 32
  {
  }

  ghost predicate Blank(s: string) {
    forall i :: 0 <= i < |s| ==> IsSpace(s[i])
  }

  /** Trimming takes away white space at both ends, and all of it. */
  lemma {:induction false} TrimMeans(s: string) returns (before: string, after: string)
    ensures s == before + Trim(s) + after && Blank(before) && Blank(after)
    ensures Trim(s) != "" ==> !IsSpace(Trim(s)[0]) && !IsSpace(Trim(s)[|Trim(s)| - 1])
    decreases |s|
  {
    hide IsSpace, Blank;
    BlankNone();
    before, after := "", "";
    if s != "" && IsSpace(s[0]) {
      before, after := TrimMeans(s[1..]);
      assert s == [s[0]] + s[1..];
      Reassociate([s[0]], before, Trim(s), after, []);
      BlankJoin([s[0]], before);
      before := [s[0]] + before;
    } else if s != "" && IsSpace(s[|s| - 1]) {
      var n := |s| - 1;
      before, after := TrimMeans(s[..n]);
      assert s == s[..n] + [s[n]];
      Reassociate([], before, Trim(s), after, [s[n]]);
      BlankJoin(after, [s[n]]);
      after := after + [s[n]];
    }
  }

  lemma BlankNone()
    ensures Blank("") && forall c :: IsSpace(c) ==> Blank([c])
  {
  }

  lemma BlankJoin(a: string, b: string)
    requires Blank(a) && Blank(b)
    ensures Blank(a + b)
  {
  }

  lemma Reassociate(x: string, before: string, t: string, after: string, y: string)
    ensures x + (before + t + after) + y == (x + before) + t + (after + y)
    ensures [] + (before + t + after) == before + t + after && (before + t + after) + [] == before + t + after
    ensures [] + before == before && after + [] == after
  {
  }
}
