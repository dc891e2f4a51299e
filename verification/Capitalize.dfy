/**
  `capitalizeWords`: split on single spaces, upper-case a lower-case first
  letter of each piece, join with single spaces. Letters are ASCII.
 */
module Capitalize {

  predicate IsLower(c: char) {
    'a' <= c <= 'z'
  }

  function Upper(c: char): (u: char)
    requires IsLower(c)
    ensures 'A' <= u <= 'Z'
  {
    (c as int - 32) as char
  }

  /** Kotlin's `split(" ")`: the pieces between single spaces, empty pieces included, so there
      is always at least one. */
  function Split(s: string): (ws: seq<string>)
    ensures |ws| >= 1
    ensures forall k :: 0 <= k < |ws| ==> ' ' !in ws[k]
  {
    if s == [] then [""]
    else
      var rest := Split(s[1..]);
      if s[0] == ' ' then [""] + rest
      else
        assert forall k :: 0 < k < |rest| ==> rest[1..][k - 1] == rest[k];
        [[s[0]] + rest[0]] + rest[1..]
  }

  /** Kotlin's `joinToString(" ")`. */
  function Join(ws: seq<string>): string
    requires |ws| >= 1
  {
    if |ws| == 1 then ws[0] else ws[0] + " " + Join(ws[1..])
  }

  /** `replaceFirstChar` with the lower-case test. */
  function CapFirst(w: string): string {
    if w != [] && IsLower(w[0]) then [Upper(w[0])] + w[1..] else w
  }

  function CapEach(ws: seq<string>): (rs: seq<string>)
    ensures |rs| == |ws|
  {
    seq(|ws|, k requires 0 <= k < |ws| => CapFirst(ws[k]))
  }

  /** Position `i` begins a word: it is the first character or follows a space. */
  predicate AtWordStart(s: string, i: nat)
    requires i < |s|
  {
    i == 0 || s[i - 1] == ' '
  }

  /** What happens to character `i`: upper-cased exactly when it is lower case and begins a
      word, kept otherwise. */
  function CapitalizedAt(s: string, i: nat): char
    requires i < |s|
  {
    if AtWordStart(s, i) && IsLower(s[i]) then Upper(s[i]) else s[i]
  }

  /** The same transformation, one character at a time; `atStart` says whether the first
      character begins a word. */
  function CapChars(s: string, atStart: bool): string {
    if s == [] then []
    else [if atStart && IsLower(s[0]) then Upper(s[0]) else s[0]] + CapChars(s[1..], s[0] == ' ')
  }

  lemma {:induction false} CapCharsAt(s: string, atStart: bool)
    ensures |CapChars(s, atStart)| == |s|
    ensures forall i :: 0 < i < |s| ==> CapChars(s, atStart)[i] == CapitalizedAt(s, i)
    ensures s != [] ==>
              CapChars(s, atStart)[0] == if atStart && IsLower(s[0]) then Upper(s[0]) else s[0]
  {
    if s != [] {
      var t := s[1..];
      CapCharsAt(t, s[0] == ' ');
      forall i | 0 < i < |s| ensures CapChars(s, atStart)[i] == CapitalizedAt(s, i) {
        assert CapChars(s, atStart)[i] == CapChars(t, s[0] == ' ')[i - 1];
        if i > 1 {
          assert CapitalizedAt(t, i - 1) == CapitalizedAt(s, i);
        }
      }
    }
  }

  lemma JoinConsChar(c: char, w: string, ws: seq<string>)
    ensures Join([[c] + w] + ws) == [c] + Join([w] + ws)
  {
    if ws != [] {
      assert ([[c] + w] + ws)[1..] == ws;
      assert ([w] + ws)[1..] == ws;
    }
  }

  /** Splitting, capitalising each piece and joining equals the character-wise pass, starting
      at a word start; joining without capitalising the first piece equals the pass starting
      inside a word. */
  ghost predicate JoinsAsCapChars(s: string) {
    && Join(CapEach(Split(s))) == CapChars(s, true)
    && Join([Split(s)[0]] + CapEach(Split(s)[1..])) == CapChars(s, false)
  }

  lemma SpaceStep(s: string)
    requires s != [] && s[0] == ' ' && JoinsAsCapChars(s[1..])
    ensures JoinsAsCapChars(s)
  {
    var rest := Split(s[1..]);
    var m := CapEach(rest);
    assert Split(s) == [""] + rest;
    assert CapEach(Split(s)) == [""] + m;
    assert [Split(s)[0]] + CapEach(Split(s)[1..]) == [""] + m;
    assert ([""] + m)[1..] == m;
    assert Join([""] + m) == " " + Join(m);
  }

  lemma LetterStep(s: string)
    requires s != [] && s[0] != ' ' && JoinsAsCapChars(s[1..])
    ensures JoinsAsCapChars(s)
  {
    var rest := Split(s[1..]);
    var w := [s[0]] + rest[0];
    var tail := CapEach(rest[1..]);
    assert Split(s) == [w] + rest[1..];
    assert Split(s)[1..] == rest[1..];
    assert CapEach(rest) == [CapFirst(rest[0])] + tail;
    assert CapEach(Split(s)) == [CapFirst(w)] + tail;
    JoinConsChar(s[0], rest[0], tail);
    var c := if IsLower(s[0]) then Upper(s[0]) else s[0];
    assert CapFirst(w) == [c] + rest[0];
    JoinConsChar(c, rest[0], tail);
  }

  lemma {:induction false} SplitCapEach(s: string)
    ensures JoinsAsCapChars(s)
  {
    if s != [] {
      SplitCapEach(s[1..]);
      if s[0] == ' ' {
        SpaceStep(s);
      } else {
        LetterStep(s);
      }
    }
  }

  /** `capitalizeWords`: the same length, and each character upper-cased exactly when it is a
      lower-case letter that begins a word; every other character, spaces included, stays. */
  function CapitalizeWords(s: string): (r: string)
    ensures |r| == |s|
    ensures forall i :: 0 <= i < |s| ==> r[i] == CapitalizedAt(s, i)
  {
    SplitCapEach(s);
    CapCharsAt(s, true);
    Join(CapEach(Split(s)))
  }

  /** Splitting and joining again gives back the text. */
  lemma {:induction false} JoinSplit(s: string)
    ensures Join(Split(s)) == s
  {
    if s != [] {
      var rest := Split(s[1..]);
      JoinSplit(s[1..]);
      if s[0] == ' ' {
        assert ([""] + rest)[1..] == rest;
      } else {
        JoinConsChar(s[0], rest[0], rest[1..]);
        assert rest == [rest[0]] + rest[1..];
      }
    }
  }

  function Spaces(s: string): nat {
    if s == [] then 0 else (if s[0] == ' ' then 1 else 0) + Spaces(s[1..])
  }

  lemma {:induction false} SplitCount(s: string)
    ensures |Split(s)| == Spaces(s) + 1
  {
    if s != [] {
      SplitCount(s[1..]);
    }
  }

  lemma {:induction false} SameSpaces(a: string, b: string)
    requires |a| == |b|
    requires forall i :: 0 <= i < |a| ==> (a[i] == ' ' <==> b[i] == ' ')
    ensures Spaces(a) == Spaces(b)
  {
    if a != [] {
      assert a[0] == ' ' <==> b[0] == ' ';
      assert forall i :: 0 <= i < |a| - 1 ==> a[1..][i] == a[i + 1] && b[1..][i] == b[i + 1];
      SameSpaces(a[1..], b[1..]);
    }
  }

  /** The number of space-separated words does not change. */
  lemma WordCountPreserved(s: string)
    ensures |Split(CapitalizeWords(s))| == |Split(s)|
  {
    var r := CapitalizeWords(s);
    SplitCount(s);
    SplitCount(r);
    SameSpaces(r, s);
  }

  /** Capitalising twice is capitalising once. */
  lemma Idempotent(s: string)
    ensures CapitalizeWords(CapitalizeWords(s)) == CapitalizeWords(s)
  {
    var r := CapitalizeWords(s);
    var rr := CapitalizeWords(r);
    forall i | 0 <= i < |r| ensures rr[i] == r[i] {
      if i > 0 {
        assert r[i - 1] == ' ' <==> s[i - 1] == ' ';
      }
    }
  }

  lemma Example()
    ensures CapitalizeWords("ann  lee") == "Ann  Lee"
  {
    var r := CapitalizeWords("ann  lee");
    assert r[0] == 'A' && r[5] == 'L';
  }
}
