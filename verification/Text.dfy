/** ASCII text helpers shared by address keys and slugs. */
module Text {
  /** Tab, line feed, vertical tab, form feed, carriage return and space. */
  predicate IsSpace(c: char) {
    '\t' <= c <= '\r' || c == ' '
  }

  function TrimStart(s: string): string {
    if s != "" && IsSpace(s[0]) then TrimStart(s[1..]) else s
  }

  function TrimEnd(s: string): string {
    if s != "" && IsSpace(s[|s| - 1]) then TrimEnd(s[..|s| - 1]) else s
  }

  function Trim(s: string): string {
    TrimEnd(TrimStart(s))
  }

  function LowerChar(c: char): char {
    if 'A' <= c <= 'Z' then (c as int + 32) as char else c
  }

  function Lower(s: string): string {
    seq(|s|, i requires 0 <= i < |s| => LowerChar(s[i]))
  }

  /** `trim().to_ascii_lowercase()`, the key of a user or contract address. */
  function AddressKey(address: string): string {
    Lower(Trim(address))
  }

  ghost predicate HasInk(s: string) {
    exists i :: 0 <= i < |s| && !IsSpace(s[i])
  }

  lemma {:induction false} TrimStartKeeps(s: string)
    ensures HasInk(TrimStart(s)) <==> HasInk(s)
    ensures TrimStart(s) != "" ==> !IsSpace(TrimStart(s)[0])
  {
    if s != "" && IsSpace(s[0]) {
      TrimStartKeeps(s[1..]);
      if HasInk(s) {
        var i :| 0 <= i < |s| && !IsSpace(s[i]);
        assert s[1..][i - 1] == s[i];
      }
      if HasInk(s[1..]) {
        var i :| 0 <= i < |s[1..]| && !IsSpace(s[1..][i]);
        assert s[i + 1] == s[1..][i];
      }
    }
  }

  lemma {:induction false} TrimEndKeeps(s: string)
    ensures TrimEnd(s) <= s
    ensures TrimEnd(s) != "" ==> !IsSpace(TrimEnd(s)[|TrimEnd(s)| - 1])
    ensures HasInk(s) ==> TrimEnd(s) != ""
  {
    if s != "" && IsSpace(s[|s| - 1]) {
      TrimEndKeeps(s[..|s| - 1]);
      if HasInk(s) {
        var i :| 0 <= i < |s| && !IsSpace(s[i]);
        assert s[..|s| - 1][i] == s[i];
      }
    }
  }

  /** Trimming empties exactly the blank texts, and trimming again changes nothing. */
  lemma TrimIsTrimmed(s: string)
    ensures Trim(s) != "" <==> HasInk(s)
    ensures Trim(Trim(s)) == Trim(s)
  {
    TrimStartKeeps(s);
    TrimEndKeeps(TrimStart(s));
    if TrimStart(s) != "" {
      assert HasInk(TrimStart(s));
    }
  }

  ghost predicate Blank(s: string) {
    forall i :: 0 <= i < |s| ==> IsSpace(s[i])
  }

  lemma {:induction false} StartTrimmed(s: string) returns (front: string)
    ensures Blank(front) && s == front + TrimStart(s)
  {
    front := "";
    if s != "" && IsSpace(s[0]) {
      front := StartTrimmed(s[1..]);
      front := [s[0]] + front;
    }
  }

  lemma {:induction false} EndTrimmed(s: string) returns (back: string)
    ensures Blank(back) && s == TrimEnd(s) + back
  {
    back := "";
    if s != "" && IsSpace(s[|s| - 1]) {
      back := EndTrimmed(s[..|s| - 1]);
      back := back + [s[|s| - 1]];
    }
  }

  /** Trimming takes white space off both ends, all of it, and nothing else. */
  lemma TrimTells(s: string) returns (front: string, back: string)
    ensures s == front + Trim(s) + back && Blank(front) && Blank(back)
    ensures Trim(s) != "" ==> !IsSpace(Trim(s)[0]) && !IsSpace(Trim(s)[|Trim(s)| - 1])
  {
    front := StartTrimmed(s);
    back := EndTrimmed(TrimStart(s));
    TrimStartKeeps(s);
    TrimEndKeeps(TrimStart(s));
  }

  /** The same letter in upper or lower case, or the same character. */
  predicate SameLetter(c: char, d: char) {
    c == d || ('A' <= c <= 'Z' && d as int == c as int + 32) || ('A' <= d <= 'Z' && c as int == d as int + 32)
  }

  ghost predicate SameLetters(s: string, t: string) {
    |s| == |t| && forall i :: 0 <= i < |s| ==> SameLetter(s[i], t[i])
  }

  lemma LowerAlike(c: char, d: char)
    ensures LowerChar(c) == LowerChar(d) <==> SameLetter(c, d)
    ensures SameLetter(c, LowerChar(c)) && !('A' <= LowerChar(c) <= 'Z')
  {
  }

  /** Two addresses share a key exactly when, trimmed, they are the same letters. */
  lemma AddressKeyAlike(s: string, t: string)
    ensures AddressKey(s) == AddressKey(t) <==> SameLetters(Trim(s), Trim(t))
    ensures SameLetters(Trim(s), AddressKey(s)) && forall i :: 0 <= i < |AddressKey(s)| ==> !('A' <= AddressKey(s)[i] <= 'Z')
  {
    var a, b := Trim(s), Trim(t);
    forall i | 0 <= i < |a|
      ensures SameLetter(a[i], AddressKey(s)[i]) && !('A' <= AddressKey(s)[i] <= 'Z')
      ensures i < |b| ==> (AddressKey(s)[i] == AddressKey(t)[i] <==> SameLetter(a[i], b[i]))
    {
      LowerAlike(a[i], a[i]);
      if i < |b| {
        LowerAlike(a[i], b[i]);
      }
    }
  }
}
