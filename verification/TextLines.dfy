/** Text as lines: what std::getline yields and what writing them back gives. */
module TextLines {
  /** The first position of a character, or the length. */
  function IndexOf(s: string, c: char): (i: nat)
    ensures i <= |s| && (i < |s| ==> s[i] == c)
    ensures forall j :: 0 <= j < i ==> s[j] != c
  {
    IndexFrom(s, c, 0)
  }

  function IndexFrom(s: string, c: char, from: nat): (i: nat)
    requires from <= |s|
    ensures from <= i <= |s| && (i < |s| ==> s[i] == c)
    ensures forall j :: from <= j < i ==> s[j] != c
    decreases |s| - from
  {
    if from == |s| || s[from] == c then from else IndexFrom(s, c, from + 1)
  }

  function Lines(s: string): seq<string>
    decreases |s|
  {
    if s == "" then []
    else
      var n := IndexOf(s, '\n');
      [s[..n]] + if n < |s| then Lines(s[n + 1..]) else []
  }

  function Unlines(ls: seq<string>): string {
    if ls == [] then "" else ls[0] + "\n" + Unlines(ls[1..])
  }

  predicate Terminated(s: string) {
    s == "" || s[|s| - 1] == '\n'
  }

  predicate Unbroken(ls: seq<string>) {
    forall i :: 0 <= i < |ls| ==> '\n' !in ls[i]
  }

  lemma {:induction false} UnlinesTerminated(ls: seq<string>)
    ensures Terminated(Unlines(ls))
    ensures ls != [] ==> Unlines(ls) != ""
  {
    if ls != [] {
      UnlinesTerminated(ls[1..]);
    }
  }

  lemma FirstOccurrence(line: string, c: char, rest: string)
    requires c !in line
    ensures IndexOf(line + [c] + rest, c) == |line|
  {
    var t := line + [c] + rest;
    assert t[|line|] == c;
    assert forall i :: 0 <= i < |line| ==> t[i] == line[i] && line[i] in line;
  }

  lemma LinesCons(line: string, rest: string)
    requires '\n' !in line
    ensures Lines(line + "\n" + rest) == [line] + Lines(rest)
  {
    var s := line + "\n" + rest;
    FirstOccurrence(line, '\n', rest);
    assert s[..|line|] == line && s[|line| + 1..] == rest;
  }

  lemma TerminatedCons(line: string, rest: string)
    ensures Terminated(line + "\n" + rest) <==> Terminated(rest)
  {
    var s := line + "\n" + rest;
    assert rest != "" ==> s[|s| - 1] == rest[|rest| - 1];
  }

  lemma OnlyLine(s: string)
    requires s != "" && '\n' !in s
    ensures Lines(s) == [s] && !Terminated(s)
  {
    assert s[..|s|] == s;
  }

  /** A text with a newline: its first line and the rest. */
  lemma SplitLine(s: string) returns (line: string, rest: string)
    requires '\n' in s
    ensures s == line + "\n" + rest && '\n' !in line
  {
    var n := IndexOf(s, '\n');
    line, rest := s[..n], s[n + 1..];
  }

  lemma UnlinesCons(line: string, ls: seq<string>)
    ensures Unlines([line] + ls) == line + "\n" + Unlines(ls)
  {
    assert ([line] + ls)[1..] == ls;
  }

  lemma SameTail(head: string, a: string, b: string)
    ensures head + a == head + b <==> a == b
  {
    assert (head + a)[|head|..] == a && (head + b)[|head|..] == b;
  }

  /** Reading lines and writing them back is the identity exactly on text that ends
      with a newline. */
  lemma {:induction false} UnlinesOfLines(s: string)
    ensures Unlines(Lines(s)) == s <==> Terminated(s)
    decreases |s|
  {
    if '\n' in s {
      var line, rest := SplitLine(s);
      LinesCons(line, rest);
      TerminatedCons(line, rest);
      UnlinesCons(line, Lines(rest));
      SameTail(line + "\n", Unlines(Lines(rest)), rest);
      UnlinesOfLines(rest);
    } else if s != "" {
      OnlyLine(s);
      UnlinesCons(s, []);
    }
  }

  lemma {:induction false} LinesUnbroken(s: string)
    ensures Unbroken(Lines(s))
    decreases |s|
  {
    if '\n' in s {
      var line, rest := SplitLine(s);
      LinesCons(line, rest);
      LinesUnbroken(rest);
    } else if s != "" {
      OnlyLine(s);
    }
  }

  lemma {:induction false} LinesOfUnlines(ls: seq<string>)
    requires Unbroken(ls)
    ensures Lines(Unlines(ls)) == ls
  {
    if ls != [] {
      assert Unbroken(ls[1..]);
      LinesCons(ls[0], Unlines(ls[1..]));
      LinesOfUnlines(ls[1..]);
    }
  }
}
