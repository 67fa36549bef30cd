/** Slugs of event markets (src/slug.rs), for ASCII questions. */
module Slugs {
  import opened Text
  import opened Formatting

  predicate Alnum(c: char) {
    '0' <= c <= '9' || 'a' <= c <= 'z' || 'A' <= c <= 'Z'
  }

  /** The maximal alphanumeric runs of a text, left to right. */
  function Words(s: string): seq<string> {
    if s == "" then []
    else
      var rest, c := s[..|s| - 1], s[|s| - 1];
      var words := Words(rest);
      if !Alnum(c) then words
      else if rest != "" && Alnum(rest[|rest| - 1]) && words != [] then Lengthen(words, c)
      else words + [[c]]
  }

  function Lengthen(words: seq<string>, c: char): (r: seq<string>)
    requires words != []
    ensures r != []
  {
    words[..|words| - 1] + [words[|words| - 1] + [c]]
  }

  function Join(words: seq<string>): string {
    if words == [] then ""
    else if |words| == 1 then words[0]
    else Join(words[..|words| - 1]) + "-" + words[|words| - 1]
  }

  /** What a slug is for: the words of the question in lower case, joined by single hyphens. */
  function SlugOf(question: string): string {
    var words := Words(Lower(Trim(question)));
    if words == [] then "event" else Join(words)
  }

  predicate SlugChar(c: char) {
    '0' <= c <= '9' || 'a' <= c <= 'z' || c == '-'
  }

  ghost predicate IsSlug(s: string) {
    && s != "" && s[0] != '-' && s[|s| - 1] != '-'
    && (forall i :: 0 <= i < |s| ==> SlugChar(s[i]))
    && (forall i :: 0 < i < |s| ==> !(s[i - 1] == '-' && s[i] == '-'))
  }

  // ---- The character loop ----

  function TrimHyphensStart(s: string): string {
    if s != "" && s[0] == '-' then TrimHyphensStart(s[1..]) else s
  }

  function TrimHyphensEnd(s: string): string {
    if s != "" && s[|s| - 1] == '-' then TrimHyphensEnd(s[..|s| - 1]) else s
  }

  /** What the loop has pushed after reading `s`. */
  function Pushed(s: string): string {
    if s == "" then ""
    else if Words(s) == [] then "-"
    else Hyphen(!Alnum(s[0])) + Join(Words(s)) + Hyphen(!Alnum(s[|s| - 1]))
  }

  function Hyphen(present: bool): string { if present then "-" else "" }

  ghost predicate WellFormed(words: seq<string>) {
    forall w :: w in words ==> w != "" && forall i :: 0 <= i < |w| ==> Alnum(w[i])
  }

  lemma {:induction false} WordsWellFormed(s: string)
    ensures WellFormed(Words(s))
  {
    if s != "" {
      var rest, c := s[..|s| - 1], s[|s| - 1];
      WordsWellFormed(rest);
      var words := Words(rest);
      if Alnum(c) && words != [] {
        assert words[|words| - 1] in words;
        LengthenWellFormed(words, c);
      }
    }
  }

  lemma LengthenWellFormed(words: seq<string>, c: char)
    requires WellFormed(words) && words != [] && Alnum(c)
    ensures WellFormed(Lengthen(words, c))
  {
    var last := words[|words| - 1];
    assert last in words;
    forall w | w in Lengthen(words, c)
      ensures w in words || w == last + [c]
    {
    }
  }

  lemma {:induction false} WordsFound(s: string)
    ensures s != "" && (Alnum(s[0]) || Alnum(s[|s| - 1])) ==> Words(s) != []
  {
    if |s| > 1 && Alnum(s[0]) {
      WordsFound(s[..|s| - 1]);
    }
  }

  lemma {:induction false} JoinAppend(words: seq<string>, w: string)
    ensures Join(words + [w]) == if words == [] then w else Join(words) + "-" + w
  {
    assert (words + [w])[..|words + [w]| - 1] == words;
  }

  /** Lengthening the last word lengthens the join. */
  lemma {:induction false} JoinExtend(words: seq<string>, c: char)
    requires words != []
    ensures Join(Lengthen(words, c)) == Join(words) + [c]
  {
    JoinAppend(words[..|words| - 1], words[|words| - 1] + [c]);
  }

  lemma {:induction false} WordsStep(s: string, c: char)
    ensures var words := Words(s);
            Words(s + [c]) ==
            if !Alnum(c) then words
            else if s != "" && Alnum(s[|s| - 1]) && words != [] then Lengthen(words, c)
            else words + [[c]]
  {
    assert (s + [c])[..|s + [c]| - 1] == s;
  }

  /** A character after a word character lengthens the last word. */
  lemma {:induction false} TextGrows(s: string, c: char)
    requires Alnum(c) && s != "" && Alnum(s[|s| - 1])
    ensures Words(s) != [] && Words(s + [c]) != [] && Join(Words(s + [c])) == Join(Words(s)) + [c]
  {
    WordsFound(s);
    WordsStep(s, c);
    JoinExtend(Words(s), c);
  }

  /** After a separator it starts a new word. */
  lemma {:induction false} TextStarts(s: string, c: char)
    requires Alnum(c) && (s == "" || !Alnum(s[|s| - 1]))
    ensures Words(s + [c]) != []
    ensures Join(Words(s + [c])) == if Words(s) == [] then [c] else Join(Words(s)) + "-" + [c]
  {
    WordsStep(s, c);
    JoinAppend(Words(s), [c]);
  }

  lemma Regroup(front: string, text: string, back: string, c: char)
    ensures front + (text + back + [c]) + "" == front + text + back + [c]
  {
  }

  lemma PushedAlnum(s: string, c: char)
    requires Alnum(c)
    ensures Pushed(s + [c]) == Pushed(s) + [c]
  {
    var t := s + [c];
    assert t[|t| - 1] == c;
    if s == "" {
      TextStarts(s, c);
      assert Pushed(t) == "" + [c] + "";
    } else {
      assert t[0] == s[0];
      var front, text := Hyphen(!Alnum(s[0])), Join(Words(s));
      if Alnum(s[|s| - 1]) {
        TextGrows(s, c);
        Regroup(front, text, "", c);
        assert text + "" == text;
      } else {
        TextStarts(s, c);
        WordsFound(s);
        if Words(s) == [] {
          assert Pushed(t) == "-" + [c] + "";
        } else {
          Regroup(front, text, "-", c);
        }
      }
    }
  }

  lemma PushedOther(s: string, c: char)
    requires !Alnum(c)
    ensures Pushed(s + [c]) == if s != "" && !Alnum(s[|s| - 1]) then Pushed(s) else Pushed(s) + "-"
  {
    var t := s + [c];
    WordsStep(s, c);
    WordsFound(s);
    assert t[|t| - 1] == c;
    if s != "" {
      assert t[0] == s[0];
      if Words(s) != [] && Alnum(s[|s| - 1]) {
        assert Hyphen(!Alnum(s[0])) + Join(Words(s)) + "" + "-" == Hyphen(!Alnum(s[0])) + Join(Words(s)) + "-";
      }
    }
  }

  lemma {:induction false} JoinEnds(words: seq<string>)
    requires WellFormed(words) && words != []
    ensures Join(words) != "" && Alnum(Join(words)[0]) && Alnum(Join(words)[|Join(words)| - 1])
  {
    assert words[|words| - 1] in words;
    if |words| > 1 {
      JoinEnds(words[..|words| - 1]);
    }
  }

  lemma {:induction false} TrimAround(text: string, front: string, back: string)
    requires text != "" && text[0] != '-' && text[|text| - 1] != '-'
    requires (front == "" || front == "-") && (back == "" || back == "-")
    ensures TrimHyphensEnd(TrimHyphensStart(front + text + back)) == text
  {
    var whole := front + text + back;
    assert TrimHyphensStart(whole) == text + back by {
      if front == "-" {
        assert whole[1..] == text + back;
      } else {
        assert whole == text + back;
      }
    }
    if back == "-" {
      assert (text + back)[..|text + back| - 1] == text;
    } else {
      assert text + back == text;
    }
  }

  lemma {:induction false} TrimPushed(s: string)
    ensures TrimHyphensEnd(TrimHyphensStart(Pushed(s))) == Join(Words(s))
  {
    WordsWellFormed(s);
    if Words(s) != [] {
      JoinEnds(Words(s));
      TrimAround(Join(Words(s)), Hyphen(!Alnum(s[0])), Hyphen(!Alnum(s[|s| - 1])));
    } else if s != "" {
      assert Pushed(s)[1..] == "";
    }
  }

  /** One turn of the loop: what is pushed, and whether a hyphen came last. */
  lemma PushedNext(text: string, i: nat)
    requires i < |text|
    ensures Pushed(text[..i + 1]) ==
            if Alnum(text[i]) then Pushed(text[..i]) + [text[i]]
            else if i > 0 && !Alnum(text[i - 1]) then Pushed(text[..i]) else Pushed(text[..i]) + "-"
  {
    assert text[..i + 1] == text[..i] + [text[i]];
    if Alnum(text[i]) {
      PushedAlnum(text[..i], text[i]);
    } else {
      PushedOther(text[..i], text[i]);
    }
  }

  lemma PushedAll(question: string)
    ensures var trimmed := TrimHyphensEnd(TrimHyphensStart(Pushed(Lower(Trim(question)))));
            SlugOf(question) == if trimmed == "" then "event" else trimmed
  {
    var text := Lower(Trim(question));
    TrimPushed(text);
    WordsWellFormed(text);
    if Words(text) != [] {
      JoinEnds(Words(text));
    }
  }

  method SlugFromQuestion(question: string) returns (slug: string)
    ensures slug == SlugOf(question)
  {
    slug := "";
    var lastHyphen := false;
    var text := Lower(Trim(question));
    for i := 0 to |text|
      invariant slug == Pushed(text[..i])
      invariant lastHyphen <==> i > 0 && !Alnum(text[i - 1])
    {
      PushedNext(text, i);
      if Alnum(text[i]) {
        slug := slug + [text[i]];
        lastHyphen := false;
      } else if !lastHyphen {
        slug := slug + "-";
        lastHyphen := true;
      }
    }
    assert text[..|text|] == text;
    PushedAll(question);
    slug := TrimHyphensEnd(TrimHyphensStart(slug));
    if slug == "" {
      slug := "event";
    }
  }

  // ---- Slugs are exactly the fixed points ----

  lemma {:induction false} JoinIsSlug(words: seq<string>)
    requires WellFormed(words) && words != []
    requires forall w, i :: w in words && 0 <= i < |w| ==> SlugChar(w[i])
    ensures IsSlug(Join(words))
  {
    var w := words[|words| - 1];
    assert w in words;
    if |words| == 1 {
    } else {
      var rest := words[..|words| - 1];
      JoinIsSlug(rest);
    }
  }

  lemma {:induction false} WordsFrom(s: string)
    requires forall i :: 0 <= i < |s| && Alnum(s[i]) ==> SlugChar(s[i])
    ensures forall w, i :: w in Words(s) && 0 <= i < |w| ==> SlugChar(w[i])
  {
    if s != "" {
      WordsFrom(s[..|s| - 1]);
    }
  }

  lemma LoweredChars(s: string)
    ensures forall i :: 0 <= i < |Lower(s)| && Alnum(Lower(s)[i]) ==> SlugChar(Lower(s)[i])
  {
  }

  /** Every slug produced is non-empty, over [a-z0-9-], without leading, trailing or doubled hyphens. */
  lemma SlugOfIsSlug(question: string)
    ensures IsSlug(SlugOf(question))
  {
    var text := Lower(Trim(question));
    LoweredChars(Trim(question));
    WordsWellFormed(text);
    WordsFrom(text);
    if Words(text) != [] {
      JoinIsSlug(Words(text));
    }
  }

  /** Splitting a text of slug characters and joining it again loses nothing but a final hyphen. */
  lemma {:induction false} JoinWords(s: string)
    requires s != "" && s[0] != '-'
    requires forall i :: 0 <= i < |s| ==> SlugChar(s[i])
    requires forall i :: 0 < i < |s| ==> !(s[i - 1] == '-' && s[i] == '-')
    ensures Words(s) != [] && s == Join(Words(s)) + if s[|s| - 1] == '-' then "-" else ""
  {
    var rest, c := s[..|s| - 1], s[|s| - 1];
    if rest == "" {
      assert s == [c];
    } else {
      JoinWords(rest);
      assert s == rest + [c];
      if c != '-' {
        if rest[|rest| - 1] == '-' {
          JoinAppend(Words(rest), [c]);
        } else {
          JoinExtend(Words(rest), c);
        }
      }
    }
  }

  /** A text is its own slug exactly when it is a slug; so making a slug of a slug changes nothing. */
  lemma SlugIffFixed(s: string)
    ensures SlugOf(s) == s <==> IsSlug(s)
    ensures SlugOf(SlugOf(s)) == SlugOf(s)
  {
    SlugOfIsSlug(s);
    if IsSlug(s) {
      SlugFixed(s);
    }
    SlugFixed(SlugOf(s));
  }

  lemma SlugFixed(s: string)
    requires IsSlug(s)
    ensures SlugOf(s) == s
  {
    assert Trim(s) == s;
    assert Lower(s) == s;
    JoinWords(s);
  }

  // ---- Unique slugs ----

  /** The slugs tried in turn: the base, then the base with suffix 2, 3, ... */
  function Candidate(base: string, k: nat): string {
    if k == 0 then base else base + "-" + Decimal(k + 1)
  }

  lemma CandidateInjective(base: string, i: nat, j: nat)
    requires Candidate(base, i) == Candidate(base, j)
    ensures i == j
  {
    if i > 0 && j > 0 {
      assert Decimal(i + 1) == Candidate(base, i)[|base| + 1..] == Candidate(base, j)[|base| + 1..];
      DecimalInjective(i + 1, j + 1);
    }
  }

  lemma {:induction false} SetOfSeq(s: seq<string>, elements: set<string>)
    requires forall x :: x in elements ==> x in s
    ensures |elements| <= |s|
  {
    if s == [] {
      assert elements == {};
    } else {
      var rest := elements - {s[0]};
      SetOfSeq(s[1..], rest);
      assert elements <= rest + {s[0]};
      if s[0] in elements {
        assert elements == rest + {s[0]};
      } else {
        assert elements == rest;
      }
    }
  }

  ghost function CandidatesTo(base: string, n: nat): set<string> {
    set j: nat | j < n :: Candidate(base, j)
  }

  lemma {:induction false} CandidatesCount(base: string, n: nat)
    ensures |CandidatesTo(base, n)| == n
  {
    if n > 0 {
      CandidatesCount(base, n - 1);
      assert CandidatesTo(base, n) == CandidatesTo(base, n - 1) + {Candidate(base, n - 1)};
      if j: nat :| j < n - 1 && Candidate(base, j) == Candidate(base, n - 1) {
        CandidateInjective(base, j, n - 1);
      }
    }
  }

  /** There are no more taken candidates than slugs. */
  lemma TakenBound(existing: seq<string>, base: string, n: nat)
    requires forall j :: 0 <= j < n ==> Candidate(base, j) in existing
    ensures n <= |existing|
  {
    CandidatesCount(base, n);
    SetOfSeq(existing, CandidatesTo(base, n));
  }

  /** The first free candidate is found within one try more than there are slugs. */
  method AllocateUniqueSlug(existing: seq<string>, question: string) returns (slug: string, ghost tries: nat)
    ensures slug !in existing && slug == Candidate(SlugOf(question), tries)
    ensures tries <= |existing| && forall j :: 0 <= j < tries ==> Candidate(SlugOf(question), j) in existing
  {
    var base := SlugFromQuestion(question);
    slug := base;
    var suffix := 2;
    tries := 0;
    while slug in existing
      invariant suffix == tries + 2 && slug == Candidate(base, tries) && tries <= |existing|
      invariant forall j :: 0 <= j < tries ==> Candidate(base, j) in existing
      decreases |existing| - tries
    {
      TakenBound(existing, base, tries + 1);
      slug := base + "-" + Decimal(suffix);
      suffix := suffix + 1;
      tries := tries + 1;
    }
  }

  lemma DigitsAreSlugChars(s: string)
    requires AllDigits(s)
    ensures forall i :: 0 <= i < |s| ==> SlugChar(s[i]) && s[i] != '-'
  {
  }

  /** Candidates are slugs themselves. */
  lemma CandidateIsSlug(base: string, k: nat)
    requires IsSlug(base)
    ensures IsSlug(Candidate(base, k))
  {
    if k > 0 {
      DigitsAreSlugChars(Decimal(k + 1));
    }
  }

  // ---- What a slug keeps of its question ----

  /**
   Where the characters of a slug come from: each letter or digit of the text once and in order, and hyphens from
   places that hold something else, so that letters next to each other were next to each other in the text.
   */
  ghost predicate ComesFrom(slug: string, text: string, at: seq<nat>) {
    && |at| == |slug|
    && (forall i :: 0 <= i < |at| ==> Taken(slug, text, at, i))
    && (forall i, j :: 0 <= i < j < |at| ==> at[i] < at[j])
    && (forall i :: 0 < i < |at| ==> slug[i - 1] == '-' || slug[i] == '-' || at[i] == at[i - 1] + 1)
    && (forall p :: 0 <= p < |text| && Alnum(text[p]) ==> p in at)
  }

  ghost predicate Taken(slug: string, text: string, at: seq<nat>, i: nat)
    requires i < |slug| && i < |at|
  {
    at[i] < |text| && if Alnum(text[at[i]]) then slug[i] == text[at[i]] else slug[i] == '-'
  }

  lemma TakenKept(slug: string, text: string, at: seq<nat>, c: char)
    requires ComesFrom(slug, text, at)
    ensures forall i :: 0 <= i < |at| ==> at[i] < |text| && Taken(slug, text + [c], at, i)
  {
    forall i | 0 <= i < |at|
      ensures at[i] < |text| && Taken(slug, text + [c], at, i)
    {
      assert Taken(slug, text, at, i);
      assert (text + [c])[at[i]] == text[at[i]];
    }
  }

  /** What ends the text was passed over, and so nothing was taken there or after it. */
  lemma AllBefore(slug: string, text: string, at: seq<nat>)
    requires ComesFrom(slug, text, at) && slug != "" && slug[|slug| - 1] != '-'
    requires text != [] && !Alnum(text[|text| - 1])
    ensures forall i :: 0 <= i < |at| ==> at[i] < |text| - 1
  {
    assert Taken(slug, text, at, |at| - 1);
    assert at[|at| - 1] < |text| - 1;
  }

  /** The letter that ends the text was taken last. */
  lemma LastTaken(slug: string, text: string, at: seq<nat>)
    requires ComesFrom(slug, text, at) && text != [] && Alnum(text[|text| - 1])
    ensures at != [] && at[|at| - 1] == |text| - 1
  {
    assert |text| - 1 in at;
    var i :| 0 <= i < |at| && at[i] == |text| - 1;
    var last := |at| - 1;
    assert Taken(slug, text, at, last) && at[last] <= |text| - 1;
  }

  lemma SkipTaken(slug: string, text: string, at: seq<nat>, c: char)
    requires ComesFrom(slug, text, at) && !Alnum(c)
    ensures ComesFrom(slug, text + [c], at)
  {
    TakenKept(slug, text, at, c);
    forall p | 0 <= p < |text + [c]| && Alnum((text + [c])[p])
      ensures p in at
    {
      assert text[p] == (text + [c])[p];
    }
  }

  /** The next letter, right after the last one taken or after a hyphen. */
  lemma LetterTaken(slug: string, text: string, at: seq<nat>, c: char)
    requires ComesFrom(slug, text, at) && Alnum(c)
    requires slug == "" || slug[|slug| - 1] == '-' || at[|at| - 1] == |text| - 1
    ensures ComesFrom(slug + [c], text + [c], at + [|text|])
  {
    var s, t, all := slug + [c], text + [c], at + [|text|];
    TakenKept(slug, text, at, c);
    assert t[|text|] == c;
    forall i | 0 <= i < |all|
      ensures Taken(s, t, all, i)
    {
      assert i < |at| ==> Taken(slug, t, at, i);
    }
    forall p | 0 <= p < |t| && Alnum(t[p])
      ensures p in all
    {
      assert p < |text| ==> text[p] == t[p] && p in at;
      assert p == |text| ==> all[|at|] == p;
    }
  }

  /** A hyphen for the place that ends the text. */
  lemma HyphenTaken(slug: string, text: string, at: seq<nat>)
    requires ComesFrom(slug, text, at) && slug != "" && slug[|slug| - 1] != '-'
    requires text != [] && !Alnum(text[|text| - 1])
    ensures ComesFrom(slug + "-", text, at + [|text| - 1])
  {
    AllBefore(slug, text, at);
    var s, all := slug + "-", at + [|text| - 1];
    forall i | 0 <= i < |all|
      ensures Taken(s, text, all, i)
    {
      assert i < |at| ==> Taken(slug, text, at, i);
    }
    forall p | 0 <= p < |text| && Alnum(text[p])
      ensures p in all
    {
      assert p in at;
    }
  }

  /** A word starts after something else. */
  lemma StartTaken(rest: string, c: char, before: seq<nat>) returns (at: seq<nat>)
    requires ComesFrom(Join(Words(rest)), rest, before) && Alnum(c) && (rest == "" || !Alnum(rest[|rest| - 1]))
    ensures ComesFrom(Join(Words(rest + [c])), rest + [c], at)
  {
    var slug := Join(Words(rest));
    TextStarts(rest, c);
    if Words(rest) == [] {
      LetterTaken(slug, rest, before, c);
      assert slug + [c] == [c];
      at := before + [|rest|];
    } else {
      WordsWellFormed(rest);
      JoinEnds(Words(rest));
      HyphenTaken(slug, rest, before);
      LetterTaken(slug + "-", rest, before + [|rest| - 1], c);
      at := before + [|rest| - 1] + [|rest|];
    }
  }

  lemma {:induction false} JoinComesFrom(text: string) returns (at: seq<nat>)
    ensures ComesFrom(Join(Words(text)), text, at)
  {
    at := [];
    if text != "" {
      var rest, c := text[..|text| - 1], text[|text| - 1];
      assert text == rest + [c];
      at := JoinComesFrom(rest);
      if !Alnum(c) {
        WordsStep(rest, c);
        SkipTaken(Join(Words(rest)), rest, at, c);
      } else if rest != "" && Alnum(rest[|rest| - 1]) {
        TextGrows(rest, c);
        LastTaken(Join(Words(rest)), rest, at);
        LetterTaken(Join(Words(rest)), rest, at, c);
        at := at + [|rest|];
      } else {
        at := StartTaken(rest, c, at);
      }
    }
  }

  ghost predicate HasWord(s: string) {
    exists i :: 0 <= i < |s| && Alnum(s[i])
  }

  lemma {:induction false} WordsIff(s: string)
    ensures Words(s) != [] <==> HasWord(s)
  {
    if s != "" {
      var rest := s[..|s| - 1];
      WordsIff(rest);
      assert s == rest + [s[|s| - 1]];
      assert HasWord(s) <==> HasWord(rest) || Alnum(s[|s| - 1]) by {
        if HasWord(rest) {
          var i :| 0 <= i < |rest| && Alnum(rest[i]);
          assert Alnum(s[i]);
        }
        if HasWord(s) {
          var i :| 0 <= i < |s| && Alnum(s[i]);
          assert i < |rest| ==> Alnum(rest[i]);
        }
      }
    }
  }

  /**
   The slug of a question without letters or digits is "event"; any other is made of exactly the letters and digits
   of the trimmed question in lower case, in order, with a hyphen just where something else comes between.
   */
  lemma SlugComesFrom(question: string) returns (at: seq<nat>)
    ensures var text := Lower(Trim(question));
            if HasWord(text) then ComesFrom(SlugOf(question), text, at) else SlugOf(question) == "event"
  {
    var text := Lower(Trim(question));
    WordsIff(text);
    at := JoinComesFrom(text);
  }

  /** A later candidate is the base, a hyphen and the digits of its number: 2 for the first, 3 for the next. */
  lemma CandidateTells(base: string, k: nat) returns (number: string)
    requires k > 0
    ensures Candidate(base, k) == base + "-" + number && IsNumeral(number) && ParseDecimal(number) == k + 1
    ensures Candidate(base, 0) == base
  {
    number := Decimal(k + 1);
    DecimalIsNumeral(k + 1);
    DecimalParses(k + 1);
  }
}
