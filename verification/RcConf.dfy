/** Listing a service in /etc/rc.d/rc.conf and taking it out again
    (src/thinr/installer/init_systems/sysv_service_installer.cpp:643-725). */
module RcConf {
  import opened Options
  import opened TextLines

  const KEY := "cfg_services="

  predicate Occurs(s: string, p: string, i: nat) {
    i + |p| <= |s| && s[i..i + |p|] == p
  }

  /** find: the first occurrence. */
  function Find(s: string, p: string): (r: Option<nat>)
    ensures r.Some? ==> Occurs(s, p, r.value)
  {
    FindFrom(s, p, 0)
  }

  function FindFrom(s: string, p: string, i: nat): (r: Option<nat>)
    ensures r.Some? ==> Occurs(s, p, r.value)
    decreases |s| + 1 - i
  {
    if Occurs(s, p, i) then Some(i)
    else if i >= |s| then None
    else FindFrom(s, p, i + 1)
  }

  lemma {:induction false} FindFromIsFirst(s: string, p: string, i: nat, j: nat)
    requires i <= j && Occurs(s, p, j)
    ensures FindFrom(s, p, i).Some? && FindFrom(s, p, i).value <= j
    decreases j - i
  {
    if !Occurs(s, p, i) {
      FindFromIsFirst(s, p, i + 1, j);
    }
  }

  lemma FindIsFirst(s: string, p: string, j: nat)
    requires Occurs(s, p, j)
    ensures Find(s, p).Some? && Find(s, p).value <= j
  {
    FindFromIsFirst(s, p, 0, j);
  }

  /** rfind of a character. */
  function LastIndexOf(s: string, c: char): (r: Option<nat>)
    ensures r.Some? ==> r.value < |s| && s[r.value] == c && c !in s[r.value + 1..]
    ensures r.None? ==> c !in s
  {
    if s == "" then None
    else if s[|s| - 1] == c then Some(|s| - 1)
    else
      var r := LastIndexOf(s[..|s| - 1], c);
      assert r.Some? ==> s[r.value + 1..] == s[..|s| - 1][r.value + 1..] + [s[|s| - 1]];
      assert forall x :: x in s ==> x in s[..|s| - 1] || x == s[|s| - 1];
      r
  }

  lemma NotFound(s: string, p: string, j: nat)
    requires Find(s, p).None?
    ensures !Occurs(s, p, j)
  {
    if Occurs(s, p, j) {
      FindIsFirst(s, p, j);
    }
  }

  // ---- one line ------------------------------------------------------------------

  /** The list a line holds, between its first and last quote. */
  function Services(line: string): Option<string> {
    if !(|KEY| <= |line| && line[..|KEY|] == KEY) then None
    else
      var start := IndexOf(line, '"');
      var end := LastIndexOf(line, '"');
      if end.Some? && start < end.value then Some(line[start + 1..end.value]) else None
  }

  function Canonical(services: string): string {
    "cfg_services=\"" + services + "\""
  }

  function Added(services: string, name: string): string {
    services + " " + name
  }

  /** The list without the name at a position, and without the spaces beside it. */
  function Removed(services: string, name: string, at: nat): string
    requires at + |name| <= |services|
  {
    var start := if at > 0 && services[at - 1] == ' ' then at - 1 else at;
    var end := if at + |name| < |services| && services[at + |name|] == ' ' then at + |name| + 1 else at + |name|;
    services[..start] + services[end..]
  }

  function EditedServices(services: string, name: string, enable: bool): Option<string> {
    var at := Find(services, name);
    if enable && at.None? then Some(Added(services, name))
    else if !enable && at.Some? then Some(Removed(services, name, at.value))
    else None
  }

  predicate Changes(line: string, name: string, enable: bool) {
    Services(line).Some? && EditedServices(Services(line).value, name, enable).Some?
  }

  function Edited(line: string, name: string, enable: bool): string {
    if Changes(line, name, enable) then Canonical(EditedServices(Services(line).value, name, enable).value)
    else line
  }

  lemma CanonicalServices(services: string)
    ensures Services(Canonical(services)) == Some(services)
  {
    var line := Canonical(services);
    assert line[..|KEY|] == KEY;
    assert "cfg_services=\"" == KEY + ['"'];
    assert line == KEY + ['"'] + (services + "\"");
    FirstOccurrence(KEY, '"', services + "\"");
    assert line[|line| - 1] == '"';
    assert line[|KEY| + 1..|line| - 1] == services;
  }

  lemma AddedIsFound(services: string, name: string)
    ensures Find(Added(services, name), name).Some?
  {
    FindIsFirst(Added(services, name), name, |services| + 1);
  }

  lemma NoSpaceInside(s: string, name: string, at: nat, i: nat)
    requires ' ' !in name && Occurs(s, name, at) && at <= i < at + |name|
    ensures s[i] != ' '
  {
  }

  /** A name without spaces that is not in the list is found, once added, only where
      it was added. */
  lemma AddedIsFoundAtTheEnd(services: string, name: string)
    requires name != "" && ' ' !in name && Find(services, name).None?
    ensures Find(Added(services, name), name) == Some(|services| + 1)
  {
    var all := Added(services, name);
    FindIsFirst(all, name, |services| + 1);
    var at := Find(all, name).value;
    if at + |name| <= |services| {
      assert services[at..at + |name|] == all[at..at + |name|];
      NotFound(services, name, at);
    } else if at <= |services| {
      NoSpaceInside(all, name, at, |services|);
    }
  }

  /** Enabling twice is enabling once, on any line and for any name. */
  lemma EnableTwice(line: string, name: string)
    ensures Edited(Edited(line, name, true), name, true) == Edited(line, name, true)
    ensures !Changes(Edited(line, name, true), name, true)
  {
    if Changes(line, name, true) {
      var services := Services(line).value;
      CanonicalServices(Added(services, name));
      AddedIsFound(services, name);
    }
  }

  predicate PlainName(name: string) {
    name != "" && ' ' !in name && '\n' !in name
  }

  /** The line is no list at all, or a list in the form the editor writes that does
      not mention the name. */
  predicate Reversible(line: string, name: string) {
    var s := Services(line);
    s.None? || (line == Canonical(s.value) && Find(s.value, name).None?)
  }

  lemma RemovedIsShorter(services: string, name: string, at: nat)
    requires name != "" && at + |name| <= |services|
    ensures |Removed(services, name, at)| < |services|
  {
  }

  lemma EnableThenDisableNew(line: string, name: string)
    requires PlainName(name) && Services(line).Some? && Find(Services(line).value, name).None?
    ensures Edited(Edited(line, name, true), name, false) == Canonical(Services(line).value)
  {
    var services := Services(line).value;
    CanonicalServices(Added(services, name));
    AddedIsFoundAtTheEnd(services, name);
    assert Removed(Added(services, name), name, |services| + 1) == services;
  }

  lemma EnableThenDisableOld(line: string, name: string)
    requires PlainName(name) && Services(line).Some? && Find(Services(line).value, name).Some?
    ensures Edited(Edited(line, name, true), name, false) != line
  {
    var services := Services(line).value;
    var at := Find(services, name).value;
    RemovedIsShorter(services, name, at);
    CanonicalServices(Removed(services, name, at));
  }

  /** Adding the name and removing it gives the line back exactly on such lines. */
  lemma EnableThenDisableIff(line: string, name: string)
    requires PlainName(name)
    ensures Edited(Edited(line, name, true), name, false) == line <==> Reversible(line, name)
  {
    if Services(line).Some? {
      if Find(Services(line).value, name).None? {
        EnableThenDisableNew(line, name);
      } else {
        EnableThenDisableOld(line, name);
      }
    }
  }

  // ---- the whole file --------------------------------------------------------------

  function EditedLines(ls: seq<string>, name: string, enable: bool): (r: seq<string>)
    ensures |r| == |ls| && forall i :: 0 <= i < |ls| ==> r[i] == Edited(ls[i], name, enable)
  {
    seq(|ls|, i requires 0 <= i < |ls| => Edited(ls[i], name, enable))
  }

  predicate AnyChange(ls: seq<string>, name: string, enable: bool) {
    exists i :: 0 <= i < |ls| && Changes(ls[i], name, enable)
  }

  function EditedText(text: string, name: string, enable: bool): string {
    if AnyChange(Lines(text), name, enable) then Unlines(EditedLines(Lines(text), name, enable)) else text
  }

  lemma {:induction false} UnlinesAppend(ls: seq<string>, line: string)
    ensures Unlines(ls + [line]) == Unlines(ls) + line + "\n"
  {
    if ls != [] {
      assert (ls + [line])[1..] == ls[1..] + [line];
      UnlinesAppend(ls[1..], line);
    }
  }

  lemma UnlinesNext(ls: seq<string>, i: nat)
    requires i < |ls|
    ensures Unlines(ls[..i + 1]) == Unlines(ls[..i]) + ls[i] + "\n"
  {
    UnlinesAppend(ls[..i], ls[i]);
    assert ls[..i + 1] == ls[..i] + [ls[i]];
  }

  /** The list edited in place. */
  method EditServices(services: string, name: string, enable: bool) returns (r: Option<string>)
    ensures r == EditedServices(services, name, enable)
  {
    var list := services;
    var at := Find(list, name);
    if enable && at.None? {
      list := list + " " + name;
      return Some(list);
    } else if !enable && at.Some? {
      var start, end := at.value, at.value + |name|;
      if start > 0 && list[start - 1] == ' ' {
        start := start - 1;
      }
      if end < |list| && list[end] == ' ' {
        end := end + 1;
      }
      list := list[..start] + list[end..];
      return Some(list);
    }
    r := None;
  }

  /** The body of the loop. */
  method EditLine(was: string, name: string, enable: bool) returns (line: string, modified: bool)
    ensures line == Edited(was, name, enable)
    ensures modified <==> Changes(was, name, enable)
  {
    line, modified := was, false;
    var services := Services(line);
    if services.Some? {
      var list := EditServices(services.value, name, enable);
      if list.Some? {
        line := "cfg_services=\"" + list.value + "\"";
        modified := true;
      }
    }
  }

  predicate ChangesBefore(ls: seq<string>, i: nat, name: string, enable: bool)
    requires i <= |ls|
  {
    i > 0 && (ChangesBefore(ls, i - 1, name, enable) || Changes(ls[i - 1], name, enable))
  }

  lemma {:induction false} ChangesBeforeIff(ls: seq<string>, i: nat, name: string, enable: bool)
    requires i <= |ls|
    ensures ChangesBefore(ls, i, name, enable) <==> exists k :: 0 <= k < i && Changes(ls[k], name, enable)
    decreases i
  {
    if i > 0 {
      ChangesBeforeIff(ls, i - 1, name, enable);
    }
  }

  /** The loop over the lines. */
  method EditAll(ls: seq<string>, name: string, enable: bool) returns (buffer: string, modified: bool)
    ensures buffer == Unlines(EditedLines(ls, name, enable))
    ensures modified <==> AnyChange(ls, name, enable)
  {
    ghost var edited := EditedLines(ls, name, enable);
    buffer, modified := "", false;
    var i := 0;
    while i < |ls|
      invariant 0 <= i <= |ls|
      invariant buffer == Unlines(edited[..i])
      invariant modified <==> ChangesBefore(ls, i, name, enable)
    {
      var line, changed := EditLine(ls[i], name, enable);
      UnlinesNext(edited, i);
      buffer := buffer + line + "\n";
      modified := modified || changed;
      i := i + 1;
    }
    assert edited[..i] == edited;
    ChangesBeforeIff(ls, i, name, enable);
  }

  class File {
    var text: Option<string>
    var backup: Option<string>

    /** modify_rc_conf: true when the file was rewritten. `copies` says whether the
        backup could be made; without one the file is left alone. */
    method Modify(name: string, enable: bool, copies: bool) returns (done: bool)
      modifies this
      ensures done <==> old(text).Some? && copies && AnyChange(Lines(old(text).value), name, enable)
      ensures text == if done then Some(EditedText(old(text).value, name, enable)) else old(text)
      ensures backup == if done then old(text) else old(backup)
    {
      var buffer, modified := EditAll(if text.Some? then Lines(text.value) else [], name, enable);
      if modified && copies {
        backup := text;
        text := Some(buffer);
        return true;
      }
      done := false;
    }
  }

  lemma EditedUnbroken(line: string, name: string, enable: bool)
    requires '\n' !in line && '\n' !in name
    ensures '\n' !in Edited(line, name, enable)
  {
    if Changes(line, name, enable) {
      var services := Services(line).value;
      assert forall x :: x in services ==> x in line;
      var edited := EditedServices(services, name, enable).value;
      assert forall x :: x in edited ==> x in services || x in name || x == ' ';
      assert forall x :: x in Canonical(edited) ==> x in KEY || x in edited || x == '"';
    }
  }

  /** The lines of the edited text are the edited lines. */
  lemma LinesOfEdited(text: string, name: string, enable: bool)
    requires '\n' !in name
    ensures Lines(EditedText(text, name, enable)) == EditedLines(Lines(text), name, enable)
  {
    var ls := Lines(text);
    if AnyChange(ls, name, enable) {
      LinesUnbroken(text);
      forall i | 0 <= i < |ls|
        ensures '\n' !in Edited(ls[i], name, enable)
      {
        EditedUnbroken(ls[i], name, enable);
      }
      LinesOfUnlines(EditedLines(ls, name, enable));
    } else {
      forall i | 0 <= i < |ls|
        ensures Edited(ls[i], name, enable) == ls[i]
      {
        assert !Changes(ls[i], name, enable);
      }
    }
  }

  /** Enabling twice is enabling once on the whole file. */
  lemma EnableFileTwice(text: string, name: string)
    requires '\n' !in name
    ensures EditedText(EditedText(text, name, true), name, true) == EditedText(text, name, true)
  {
    LinesOfEdited(text, name, true);
    var ls := EditedLines(Lines(text), name, true);
    forall i | 0 <= i < |ls|
      ensures !Changes(ls[i], name, true)
    {
      EnableTwice(Lines(text)[i], name);
    }
  }

  predicate HasList(ls: seq<string>) {
    exists i :: 0 <= i < |ls| && Services(ls[i]).Some?
  }

  predicate AllReversible(ls: seq<string>, name: string) {
    forall i :: 0 <= i < |ls| ==> Reversible(ls[i], name)
  }

  /** Adding a service and removing it gives the file back exactly when it has no
      list line, or ends with a newline and every list line is reversible. */
  lemma EnableThenDisableFileIff(text: string, name: string)
    requires PlainName(name)
    ensures EditedText(EditedText(text, name, true), name, false) == text
            <==> !HasList(Lines(text)) || (Terminated(text) && AllReversible(Lines(text), name))
  {
    var ls := Lines(text);
    var once := EditedText(text, name, true);
    var twice := EditedText(once, name, false);
    LinesOfEdited(text, name, true);
    LinesOfEdited(once, name, false);
    assert |Lines(twice)| == |ls|;
    forall i | 0 <= i < |ls|
      ensures Lines(twice)[i] == ls[i] <==> Reversible(ls[i], name)
    {
      EnableThenDisableIff(ls[i], name);
    }
    assert Lines(twice) == ls <==> AllReversible(ls, name);
    if HasList(ls) {
      ListForcesRewrite(text, name);
      UnlinesOfLines(text);
      UnlinesOfLines(twice);
    } else {
      NoListNoChange(text, name);
    }
  }

  /** With a list line, one of the two edits rewrites the file, so it ends up ending
      with a newline. */
  lemma ListForcesRewrite(text: string, name: string)
    requires PlainName(name) && HasList(Lines(text))
    ensures Terminated(EditedText(EditedText(text, name, true), name, false))
  {
    var ls := Lines(text);
    var once := EditedText(text, name, true);
    LinesOfEdited(text, name, true);
    var i :| 0 <= i < |ls| && Services(ls[i]).Some?;
    var services := Services(ls[i]).value;
    if Find(services, name).None? {
      CanonicalServices(Added(services, name));
      AddedIsFound(services, name);
    }
    assert Changes(Lines(once)[i], name, false);
    UnlinesTerminated(EditedLines(Lines(once), name, false));
  }

  lemma NoListNoChange(text: string, name: string)
    requires !HasList(Lines(text))
    ensures EditedText(EditedText(text, name, true), name, false) == text
  {
  }

  // ---- the list as words -------------------------------------------------------------

  function Words(s: string): seq<string>
    decreases |s|
  {
    if s == "" then []
    else
      var n := IndexOf(s, ' ');
      (if n == 0 then [] else [s[..n]]) + if n < |s| then Words(s[n + 1..]) else []
  }

  lemma WordsAlone(s: string)
    requires ' ' !in s
    ensures Words(s) == if s == "" then [] else [s]
  {
    assert s[..|s|] == s;
  }

  lemma WordsSplit(a: string, rest: string)
    requires ' ' !in a
    ensures Words(a + [' '] + rest) == (if a == "" then [] else [a]) + Words(rest)
  {
    var s := a + [' '] + rest;
    FirstOccurrence(a, ' ', rest);
    assert s[..|a|] == a && s[|a| + 1..] == rest;
  }

  lemma SplitAtSpace(s: string) returns (first: string, rest: string)
    requires ' ' in s
    ensures s == first + [' '] + rest && ' ' !in first
  {
    var n := IndexOf(s, ' ');
    first, rest := s[..n], s[n + 1..];
  }

  /** Adding puts the name after the services that were listed. */
  lemma {:induction false} AddedIsLastWord(services: string, name: string)
    requires PlainName(name)
    ensures Words(Added(services, name)) == Words(services) + [name]
    decreases |services|
  {
    WordsAlone(name);
    if ' ' in services {
      var first, rest := SplitAtSpace(services);
      assert Added(services, name) == first + [' '] + Added(rest, name);
      WordsSplit(first, rest);
      WordsSplit(first, Added(rest, name));
      AddedIsLastWord(rest, name);
      var before := if first == "" then [] else [first];
      assert before + (Words(rest) + [name]) == before + Words(rest) + [name];
    } else {
      assert Added(services, name) == services + [' '] + name;
      WordsSplit(services, name);
      WordsAlone(services);
    }
  }

  /** After enabling, a list names the service exactly when it did before or did not
      hold the name inside another word. */
  lemma EnableListsIff(line: string, name: string)
    requires PlainName(name) && Services(line).Some?
    ensures Services(Edited(line, name, true)).Some?
    ensures name in Words(Services(Edited(line, name, true)).value)
            <==> name in Words(Services(line).value) || Find(Services(line).value, name).None?
  {
    var services := Services(line).value;
    if Find(services, name).None? {
      CanonicalServices(Added(services, name));
      AddedIsLastWord(services, name);
    }
  }

  lemma AddedAssociates(a: string, b: string, c: string)
    ensures Added(Added(a, b), c) == Added(a, Added(b, c))
  {
  }

  function OneWord(a: string): seq<string> {
    if a == "" then [] else [a]
  }

  lemma WordsAfterWord(a: string, rest: string)
    requires ' ' !in a
    ensures Words(Added(a, rest)) == OneWord(a) + Words(rest)
  {
    assert Added(a, rest) == a + [' '] + rest;
    WordsSplit(a, rest);
  }

  lemma Associates(a: seq<string>, b: seq<string>, c: seq<string>)
    ensures (a + b) + c == a + (b + c)
  {
  }

  lemma SplitWord(s: string) returns (first: string, rest: string)
    requires ' ' in s
    ensures s == Added(first, rest) && ' ' !in first && |rest| < |s|
  {
    first, rest := SplitAtSpace(s);
  }

  /** The words of two lists one after the other. */
  lemma {:induction false} WordsOfAdded(a: string, b: string)
    ensures Words(Added(a, b)) == Words(a) + Words(b)
    decreases |a|
  {
    if ' ' in a {
      var first, rest := SplitWord(a);
      AddedAssociates(first, rest, b);
      WordsOfAdded(rest, b);
      WordsAfterWord(first, rest);
      WordsAfterWord(first, Added(rest, b));
      Associates(OneWord(first), Words(rest), Words(b));
    } else {
      WordsAfterWord(a, b);
      WordsAlone(a);
    }
  }

  /** The list with a service between two parts. */
  function Between(a: string, name: string, b: string): string {
    Added(a, Added(name, b))
  }

  lemma RemovedFromBetween(a: string, name: string, b: string)
    requires Find(Between(a, name, b), name) == Some(|a| + 1)
    ensures EditedServices(Between(a, name, b), name, false) == Some(a + b)
  {
    var services := Between(a, name, b);
    assert services == a + " " + name + " " + b;
    assert services[..|a|] == a && services[|a| + 2 + |name|..] == b;
  }

  lemma JoinedInBetween(before: string, x: string, y: string, after: string)
    ensures Added(before, x) + Added(y, after) == Added(before, Added(x + y, after))
  {
  }

  lemma WordsInBetween(before: string, x: string, name: string, y: string, after: string)
    requires PlainName(name) && ' ' !in x && ' ' !in y && x != "" && y != ""
    ensures Words(Between(Added(before, x), name, Added(y, after))) == Words(before) + [x, name, y] + Words(after)
  {
    WordsOfAdded(before, x);
    WordsAlone(x);
    WordsOfAdded(Added(before, x), Added(name, Added(y, after)));
    WordsAfterWord(name, Added(y, after));
    WordsAfterWord(y, after);
    ThreeInARow(Words(before), x, name, y, Words(after));
  }

  lemma ThreeInARow(p: seq<string>, x: string, name: string, y: string, q: seq<string>)
    ensures (p + [x]) + ([name] + ([y] + q)) == p + [x, name, y] + q
  {
  }

  /** Disabling a service that stands between two others takes both spaces with it, so
      its neighbours run together into one word and neither is listed any more. */
  lemma RemovalJoinsNeighbours(before: string, x: string, name: string, y: string, after: string)
    requires PlainName(name) && ' ' !in x && ' ' !in y && x != "" && y != ""
    requires Find(Between(Added(before, x), name, Added(y, after)), name) == Some(|Added(before, x)| + 1)
    ensures var services := Between(Added(before, x), name, Added(y, after));
            && Words(services) == Words(before) + [x, name, y] + Words(after)
            && EditedServices(services, name, false).Some?
            && Words(EditedServices(services, name, false).value) == Words(before) + [x + y] + Words(after)
  {
    var a, b := Added(before, x), Added(y, after);
    RemovedFromBetween(a, name, b);
    WordsInBetween(before, x, name, y, after);
    JoinedInBetween(before, x, y, after);
    WordsOfAdded(before, Added(x + y, after));
    WordsAfterWord(x + y, after);
    Associates(Words(before), [x + y], Words(after));
  }
}
