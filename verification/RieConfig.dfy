/** The configuration file of the bundled rieMiner (`readExtraRieMinerLines` and `writeRieMinerConf` of
    src/riecoin/Dispatch.cpp): five managed lines are rewritten on every start, all other lines of the
    user are read back and kept. */
module RieConfig {
  import Sequences

  // ---- reading ----

  /** The position of the next newline, or the length of the text. */
  function NextBreak(text: string, i: nat): (n: nat)
    requires i <= |text|
    ensures i <= n <= |text|
    decreases |text| - i
  {
    if i == |text| || text[i] == '\n' then i else NextBreak(text, i + 1)
  }

  /** Where the first line ends. */
  function LineEnd(text: string): (n: nat)
    ensures n <= |text|
  {
    NextBreak(text, 0)
  }

  lemma {:induction false} NextBreakIs(text: string, i: nat, n: nat)
    requires i <= n <= |text| && (n < |text| ==> text[n] == '\n')
    requires forall k :: i <= k < n ==> text[k] != '\n'
    ensures NextBreak(text, i) == n
    decreases n - i
  {
    if i < n {
      NextBreakIs(text, i + 1, n);
    }
  }

  lemma {:induction false} NextBreakIsNewline(text: string, i: nat)
    requires i <= |text|
    ensures var n := NextBreak(text, i); (n < |text| ==> text[n] == '\n') && forall k :: i <= k < n ==> text[k] != '\n'
    decreases |text| - i
  {
    if i < |text| && text[i] != '\n' {
      NextBreakIsNewline(text, i + 1);
    }
  }

  /** What is left after one `getline`. */
  function AfterLine(text: string): (rest: string)
    requires text != ""
    ensures |rest| < |text|
  {
    var n := LineEnd(text);
    if n == |text| then "" else text[n + 1..]
  }

  /** The lines that repeated `getline` delivers. */
  function Lines(text: string): seq<string>
    decreases |text|
  {
    if text == "" then [] else [text[..LineEnd(text)]] + Lines(AfterLine(text))
  }

  function StripCR(line: string): string {
    if line != "" && line[|line| - 1] == '\r' then line[..|line| - 1] else line
  }

  predicate IsSpace(c: char) {
    c == ' ' || c == '\t' || c == '\n' || c == '\r' || c as int == 11 || c as int == 12
  }

  function Lower(c: char): char {
    if 'A' <= c <= 'Z' then (c as int + 32) as char else c
  }

  /** The key of a line: what stands before the first equals sign, in lower case and without spaces. */
  function Key(line: string): string {
    if line == "" || line[0] == '=' then ""
    else (if IsSpace(line[0]) then "" else [Lower(line[0])]) + Key(line[1..])
  }

  /** A line that the user wrote and that the rewriter keeps. */
  predicate Kept(keys: seq<string>, line: string) {
    line != "" && line[0] != '#' && Key(line) !in keys
  }

  /** What one line of the file contributes. */
  function Extra(keys: seq<string>, line: string): seq<string> {
    if Kept(keys, StripCR(line)) then [StripCR(line)] else []
  }

  function Extras(keys: seq<string>, lines: seq<string>): seq<string> {
    if lines == [] then [] else Extra(keys, lines[0]) + Extras(keys, lines[1..])
  }

  method GetLine(text: string) returns (line: string, rest: string)
    requires text != ""
    ensures line == text[..LineEnd(text)] && rest == AfterLine(text)
  {
    var n := 0;
    while n < |text| && text[n] != '\n'
      invariant 0 <= n <= |text|
      invariant NextBreak(text, 0) == NextBreak(text, n)
    {
      n := n + 1;
    }
    line := text[..n];
    rest := if n == |text| then "" else text[n + 1..];
  }

  method KeyOf(line: string) returns (key: string)
    ensures key == Key(line)
  {
    key := "";
    var i := 0;
    while i < |line|
      invariant 0 <= i <= |line|
      invariant Key(line) == key + Key(line[i..])
    {
      if line[i] == '=' {
        break;
      }
      assert line[i..][1..] == line[i + 1..];
      if !IsSpace(line[i]) {
        key := key + [Lower(line[i])];
      }
      i := i + 1;
    }
  }

  method IsManaged(keys: seq<string>, key: string) returns (managed: bool)
    ensures managed <==> key in keys
  {
    managed := false;
    for i := 0 to |keys|
      invariant managed <==> key in keys[..i]
    {
      if key == keys[i] {
        managed := true;
      }
    }
  }

  /** The body of the reading loop. */
  method ReadLine(keys: seq<string>, raw: string, extra: seq<string>) returns (extra': seq<string>)
    ensures extra' == extra + Extra(keys, raw)
  {
    extra' := extra;
    var line := raw;
    if line != "" && line[|line| - 1] == '\r' {
      line := line[..|line| - 1];
    }
    if line == "" || line[0] == '#' {
      return;
    }
    var key := KeyOf(line);
    var managed := IsManaged(keys, key);
    if !managed {
      extra' := extra + [line];
    }
  }

  method ReadExtraLines(keys: seq<string>, text: string) returns (extra: seq<string>)
    ensures extra == Extras(keys, Lines(text))
  {
    extra := [];
    var rest := text;
    ghost var all := Extras(keys, Lines(text));
    while rest != ""
      invariant Remain(keys, all, extra, rest)
      decreases |rest|
    {
      RemainStep(keys, all, extra, rest);
      var line;
      line, rest := GetLine(rest);
      extra := ReadLine(keys, line, extra);
    }
  }

  /** What was read and what will be read make up all there is to read. */
  ghost predicate Remain(keys: seq<string>, all: seq<string>, extra: seq<string>, rest: string) {
    all == extra + Extras(keys, Lines(rest))
  }

  lemma RemainStep(keys: seq<string>, all: seq<string>, extra: seq<string>, rest: string)
    requires rest != "" && Remain(keys, all, extra, rest)
    ensures Remain(keys, all, extra + Extra(keys, rest[..LineEnd(rest)]), AfterLine(rest))
  {
    assert Lines(rest)[1..] == Lines(AfterLine(rest));
  }

  // ---- writing ----

  function Join(lines: seq<string>): string {
    if lines == [] then "" else lines[0] + "\n" + Join(lines[1..])
  }

  lemma {:induction false} JoinAppend(lines: seq<string>, line: string)
    ensures Join(lines + [line]) == Join(lines) + line + "\n"
  {
    if lines != [] {
      assert (lines + [line])[1..] == lines[1..] + [line];
      JoinAppend(lines[1..], line);
    }
  }

  /** Lines written to the end of the file. */
  method Put(text: string, ghost before: seq<string>, lines: seq<string>) returns (text': string)
    requires text == Join(before)
    ensures text' == Join(before + lines)
  {
    text' := text;
    assert before + lines[..0] == before;
    for i := 0 to |lines|
      invariant text' == Join(before + lines[..i])
    {
      JoinAppend(before + lines[..i], lines[i]);
      assert before + lines[..i + 1] == (before + lines[..i]) + [lines[i]];
      text' := text' + lines[i] + "\n";
    }
    assert lines[..|lines|] == lines;
  }

  // ---- reading back what was written ----

  predicate OneLine(s: string) {
    forall i :: 0 <= i < |s| ==> s[i] != '\n'
  }

  lemma LineEndAt(line: string, rest: string)
    requires OneLine(line)
    ensures LineEnd(line + "\n" + rest) == |line|
  {
    NextBreakIs(line + "\n" + rest, 0, |line|);
  }

  /** Reading lines back undoes writing them. */
  lemma {:induction false} LinesOfJoin(lines: seq<string>)
    requires forall l :: l in lines ==> OneLine(l)
    ensures Lines(Join(lines)) == lines
  {
    if lines != [] {
      var rest := Join(lines[1..]);
      LineEndAt(lines[0], rest);
      LinesOfJoin(lines[1..]);
      var text := lines[0] + "\n" + rest;
      assert text[..|lines[0]|] == lines[0] && text[|lines[0]| + 1..] == rest;
    }
  }

  lemma OneLineIff(s: string)
    ensures OneLine(s) <==> LineEnd(s) == |s|
  {
    NextBreakIsNewline(s, 0);
    if OneLine(s) {
      NextBreakIs(s, 0, |s|);
    }
  }

  /** The lines that a text becomes when it is written with a newline behind it. */
  function Pieces(s: string): (ls: seq<string>)
    ensures ls != []
    decreases |s|
  {
    var n := LineEnd(s);
    if n == |s| then [s] else [s[..n]] + Pieces(s[n + 1..])
  }

  lemma PiecesFirst(line: string, rest: string)
    requires OneLine(line)
    ensures Pieces(line + "\n" + rest) == [line] + Pieces(rest)
  {
    var text := line + "\n" + rest;
    LineEndAt(line, rest);
    assert text[..|line|] == line && text[|line| + 1..] == rest;
  }

  lemma LinesFirst(line: string, rest: string)
    requires OneLine(line)
    ensures Lines(line + "\n" + rest) == [line] + Lines(rest)
  {
    var text := line + "\n" + rest;
    LineEndAt(line, rest);
    assert text[..|line|] == line && text[|line| + 1..] == rest;
  }

  lemma SplitAtNewline(s: string) returns (line: string, rest: string)
    requires !OneLine(s)
    ensures s == line + "\n" + rest && OneLine(line)
  {
    OneLineIff(s);
    NextBreakIsNewline(s, 0);
    var n := LineEnd(s);
    line, rest := s[..n], s[n + 1..];
    assert s == s[..n] + [s[n]] + s[n + 1..];
  }

  lemma NewlineAssociates(a: string, b: string, c: string)
    ensures (a + "\n" + b) + "\n" + c == a + "\n" + (b + "\n" + c)
  {
  }

  lemma LinesStep(line: string, text: string, ps: seq<string>, ls: seq<string>)
    requires OneLine(line) && Lines(text) == ps + ls
    ensures Lines(line + "\n" + text) == ([line] + ps) + ls
  {
    LinesFirst(line, text);
  }

  lemma {:induction false} LinesOfPieces(s: string, rest: string, ls: seq<string>)
    requires Lines(rest) == ls
    ensures Lines(s + "\n" + rest) == Pieces(s) + ls
    decreases |s|
  {
    if OneLine(s) {
      OneLineIff(s);
      LinesFirst(s, rest);
    } else {
      var line, more := SplitAtNewline(s);
      LinesOfPieces(more, rest, ls);
      LinesStep(line, more + "\n" + rest, Pieces(more), ls);
      PiecesFirst(line, more);
      NewlineAssociates(line, more, rest);
    }
  }

  /** The lines that a list of texts becomes. */
  function Flat(ls: seq<string>): seq<string> {
    if ls == [] then [] else Pieces(ls[0]) + Flat(ls[1..])
  }

  /** Reading back what was written, for any texts. */
  lemma {:induction false} LinesOfTexts(ls: seq<string>)
    ensures Lines(Join(ls)) == Flat(ls)
  {
    if ls != [] {
      LinesOfTexts(ls[1..]);
      LinesOfPieces(ls[0], Join(ls[1..]), Flat(ls[1..]));
    }
  }

  lemma {:induction false} FlatAppend(a: seq<string>, b: seq<string>)
    ensures Flat(a + b) == Flat(a) + Flat(b)
  {
    if a == [] {
      assert a + b == b;
    } else {
      assert (a + b)[1..] == a[1..] + b;
      FlatAppend(a[1..], b);
    }
  }

  lemma {:induction false} FlatOfLines(ls: seq<string>)
    requires forall l :: l in ls ==> OneLine(l)
    ensures Flat(ls) == ls
  {
    if ls != [] {
      OneLineIff(ls[0]);
      FlatOfLines(ls[1..]);
    }
  }

  lemma {:induction false} ExtrasAppend(keys: seq<string>, a: seq<string>, b: seq<string>)
    ensures Extras(keys, a + b) == Extras(keys, a) + Extras(keys, b)
  {
    if a == [] {
      assert a + b == b;
    } else {
      assert (a + b)[1..] == a[1..] + b;
      ExtrasAppend(keys, a[1..], b);
      assert Extra(keys, a[0]) + (Extras(keys, a[1..]) + Extras(keys, b))
          == (Extra(keys, a[0]) + Extras(keys, a[1..])) + Extras(keys, b);
    }
  }

  /** Every line that a read keeps is one that would be kept again, save for its carriage return. */
  ghost predicate AreExtras(keys: seq<string>, ex: seq<string>) {
    forall l :: l in ex ==> OneLine(l) && Kept(keys, l)
  }

  lemma {:induction false} LinesAreOneLine(text: string)
    ensures forall l :: l in Lines(text) ==> OneLine(l)
    decreases |text|
  {
    if text != "" {
      NextBreakIsNewline(text, 0);
      LinesAreOneLine(AfterLine(text));
    }
  }

  lemma {:induction false} ExtrasAreExtras(keys: seq<string>, lines: seq<string>)
    requires forall l :: l in lines ==> OneLine(l)
    ensures AreExtras(keys, Extras(keys, lines))
  {
    if lines != [] {
      ExtrasAreExtras(keys, lines[1..]);
      assert OneLine(lines[0]);
      assert forall l :: l in Extra(keys, lines[0]) ==> l == StripCR(lines[0]) && OneLine(l) && Kept(keys, l);
    }
  }

  predicate EndsInCR(line: string) {
    line != "" && line[|line| - 1] == '\r'
  }

  lemma {:induction false} ExtrasShrink(keys: seq<string>, ex: seq<string>)
    ensures |Extras(keys, ex)| <= |ex|
  {
    if ex != [] {
      ExtrasShrink(keys, ex[1..]);
    }
  }

  /** A second read changes nothing exactly when no kept line still ends in a carriage return. */
  lemma {:induction false} RereadIff(keys: seq<string>, ex: seq<string>)
    requires AreExtras(keys, ex)
    ensures Extras(keys, ex) == ex <==> forall l :: l in ex ==> !EndsInCR(l)
  {
    if ex != [] {
      RereadIff(keys, ex[1..]);
      ExtrasShrink(keys, ex[1..]);
      assert ex == [ex[0]] + ex[1..];
      assert forall l :: l in ex <==> l == ex[0] || l in ex[1..];
      if Extras(keys, ex) == ex {
        assert |Extra(keys, ex[0])| == 1;
        assert Extras(keys, ex)[0] == StripCR(ex[0]) && Extras(keys, ex)[1..] == Extras(keys, ex[1..]);
      }
      if !EndsInCR(ex[0]) {
        assert Extra(keys, ex[0]) == [ex[0]];
      }
    }
  }

  /** A managed line, or any comment, contributes nothing. */
  predicate Dropped(keys: seq<string>, line: string) {
    line != "" && (line[0] == '#' || Key(line) in keys)
  }

  lemma {:induction false} KeyIgnoresCR(line: string)
    ensures Key(StripCR(line)) == Key(line)
  {
    if line != "" && line != "\r" {
      assert StripCR(line)[0] == line[0] && StripCR(line)[1..] == StripCR(line[1..]);
      KeyIgnoresCR(line[1..]);
    }
  }

  lemma {:induction false} DroppedLines(keys: seq<string>, lines: seq<string>)
    requires forall l :: l in lines ==> Dropped(keys, l)
    ensures Extras(keys, lines) == []
  {
    if lines != [] {
      var line := StripCR(lines[0]);
      assert Dropped(keys, lines[0]);
      KeyIgnoresCR(lines[0]);
      assert line == "" || line[0] == lines[0][0];
      assert Extra(keys, lines[0]) == [];
      DroppedLines(keys, lines[1..]);
    }
  }

  /** Reading the extra lines back from a freshly written file gives the same lines exactly when none
      of them still ends in a carriage return. `head` is what the program writes in front of them. */
  lemma FixedPointIff(keys: seq<string>, head: seq<string>, ex: seq<string>)
    requires AreExtras(keys, ex)
    requires forall l :: l in head ==> OneLine(l) && Dropped(keys, l)
    ensures Extras(keys, Lines(Join(head + ex))) == ex <==> forall l :: l in ex ==> !EndsInCR(l)
  {
    LinesOfJoin(head + ex);
    ExtrasAppend(keys, head, ex);
    DroppedLines(keys, head);
    RereadIff(keys, ex);
  }

  // ---- the user's own lines as they stand in the file ----

  predicate IsOwn(keys: seq<string>, line: string) {
    !(line != "" && line[0] == '#') && Key(line) !in keys
  }

  /** The raw lines that are neither a comment nor managed. */
  function Own(keys: seq<string>, lines: seq<string>): seq<string> {
    if lines == [] then [] else (if IsOwn(keys, lines[0]) then [lines[0]] else []) + Own(keys, lines[1..])
  }

  /** A line that a read returns as it stands. */
  predicate Clean(line: string) {
    line != "" && !EndsInCR(line)
  }

  lemma ExtraOfOwn(keys: seq<string>, line: string)
    ensures !IsOwn(keys, line) ==> Extra(keys, line) == []
    ensures |Extra(keys, line)| <= 1 && (IsOwn(keys, line) ==> (Extra(keys, line) == [line] <==> Clean(line)))
  {
    KeyIgnoresCR(line);
    assert StripCR(line) == "" || StripCR(line)[0] == line[0];
  }

  lemma {:induction false} ReadShrinks(keys: seq<string>, lines: seq<string>)
    ensures |Extras(keys, lines)| <= |Own(keys, lines)|
  {
    if lines != [] {
      ExtraOfOwn(keys, lines[0]);
      ReadShrinks(keys, lines[1..]);
    }
  }

  /** A read returns the user's own lines exactly when none of them is empty or ends in a carriage
      return. */
  lemma {:induction false} ReadIsVerbatimIff(keys: seq<string>, lines: seq<string>)
    ensures Extras(keys, lines) == Own(keys, lines) <==> forall l :: l in Own(keys, lines) ==> Clean(l)
  {
    if lines != [] {
      var l, rest := lines[0], lines[1..];
      ReadIsVerbatimIff(keys, rest);
      ReadShrinks(keys, rest);
      ExtraOfOwn(keys, l);
      if IsOwn(keys, l) {
        HeadsAndTails(Extra(keys, l), Extras(keys, rest), l, Own(keys, rest));
        assert Own(keys, lines) == [l] + Own(keys, rest);
        assert forall x :: x in Own(keys, lines) <==> x == l || x in Own(keys, rest);
      } else {
        assert Own(keys, lines) == Own(keys, rest) && Extras(keys, lines) == Extras(keys, rest);
      }
    }
  }

  lemma HeadsAndTails(a: seq<string>, b: seq<string>, x: string, c: seq<string>)
    requires |a| <= 1 && |b| <= |c|
    ensures a + b == [x] + c <==> a == [x] && b == c
  {
    if a + b == [x] + c {
      assert |a| + |b| == 1 + |c|;
      assert (a + b)[0] == x && (a + b)[1..] == b && ([x] + c)[1..] == c;
    }
  }

  lemma {:induction false} OwnAppend(keys: seq<string>, a: seq<string>, b: seq<string>)
    ensures Own(keys, a + b) == Own(keys, a) + Own(keys, b)
  {
    if a == [] {
      assert a + b == b;
    } else {
      assert (a + b)[1..] == a[1..] + b;
      OwnAppend(keys, a[1..], b);
    }
  }

  lemma {:induction false} OwnOfOwn(keys: seq<string>, ls: seq<string>)
    requires forall l :: l in ls ==> IsOwn(keys, l)
    ensures Own(keys, ls) == ls
  {
    if ls != [] {
      assert IsOwn(keys, ls[0]);
      OwnOfOwn(keys, ls[1..]);
    }
  }

  lemma ExtrasCons(keys: seq<string>, l: string, ls: seq<string>)
    ensures Extras(keys, [l] + ls) == Extra(keys, l) + Extras(keys, ls)
  {
    assert ([l] + ls)[1..] == ls;
  }

  lemma {:induction false} OwnAreOwn(keys: seq<string>, lines: seq<string>)
    ensures forall l :: l in Own(keys, lines) ==> IsOwn(keys, l)
    ensures Extras(keys, Own(keys, lines)) == Extras(keys, lines)
  {
    if lines != [] {
      OwnAreOwn(keys, lines[1..]);
      ExtraOfOwn(keys, lines[0]);
      if IsOwn(keys, lines[0]) {
        ExtrasCons(keys, lines[0], Own(keys, lines[1..]));
      } else {
        assert Own(keys, lines) == Own(keys, lines[1..]) && Extras(keys, lines) == Extras(keys, lines[1..]);
      }
    }
  }

  // ---- lines that a start loses and brings back ----

  /** Nothing but carriage returns, if anything. */
  predicate OnlyReturns(line: string) {
    forall i :: 0 <= i < |line| ==> line[i] == '\r'
  }

  predicate AllReturns(ls: seq<string>) {
    forall l :: l in ls ==> OnlyReturns(l)
  }

  function Weight(ls: seq<string>): nat {
    if ls == [] then 0 else |ls[0]| + 1 + Weight(ls[1..])
  }

  lemma WeightCons(l: string, ls: seq<string>)
    ensures Weight([l] + ls) == |l| + 1 + Weight(ls)
  {
    assert ([l] + ls)[1..] == ls;
  }

  lemma {:induction false} ReturnsShrink(keys: seq<string>, a: seq<string>)
    requires AllReturns(a)
    ensures AllReturns(Extras(keys, a)) && Weight(Extras(keys, a)) + |a| <= Weight(a)
  {
    if a != [] {
      var l := a[0];
      assert OnlyReturns(l) && (l != "" ==> l[|l| - 1] == '\r');
      ReturnsShrink(keys, a[1..]);
      if Extra(keys, l) == [] {
        assert Extras(keys, a) == Extras(keys, a[1..]);
      } else {
        WeightCons(StripCR(l), Extras(keys, a[1..]));
      }
    }
  }

  /** A list of such lines, followed by what a read leaves of it, what a read leaves of that, and so on. */
  function Cascade(keys: seq<string>, a: seq<string>): seq<string>
    requires AllReturns(a)
    decreases Weight(a)
  {
    if a == [] then []
    else
      ReturnsShrink(keys, a);
      a + Cascade(keys, Extras(keys, a))
  }

  lemma {:induction false} CascadeIsFixed(keys: seq<string>, a: seq<string>)
    requires AllReturns(a)
    ensures a + Extras(keys, Cascade(keys, a)) == Cascade(keys, a)
    decreases Weight(a)
  {
    if a != [] {
      var e := Extras(keys, a);
      ReturnsShrink(keys, a);
      CascadeIsFixed(keys, e);
      ExtrasAppend(keys, a, Cascade(keys, e));
    }
  }

  /** The lines begin with a cascade of the lines added, and the others are clean. */
  predicate Restores(keys: seq<string>, added: seq<string>, ls: seq<string>) {
    AllReturns(added) && Cascade(keys, added) <= ls && forall l :: l in ls[|Cascade(keys, added)|..] ==> Clean(l)
  }

  lemma RestoringKeeps(keys: seq<string>, a: seq<string>, ls: seq<string>)
    requires (forall l :: l in ls ==> IsOwn(keys, l)) && Restores(keys, a, ls)
    ensures a + Extras(keys, ls) == ls
  {
    var c := Cascade(keys, a);
    var rest := ls[|c|..];
    CleanIsRead(keys, rest);
    assert ls == c + rest;
    CascadeAndRest(keys, a, rest);
  }

  lemma CleanIsRead(keys: seq<string>, ls: seq<string>)
    requires forall l :: l in ls ==> IsOwn(keys, l) && Clean(l)
    ensures Extras(keys, ls) == ls
  {
    OwnOfOwn(keys, ls);
    ReadIsVerbatimIff(keys, ls);
  }

  lemma CascadeAndRest(keys: seq<string>, a: seq<string>, rest: seq<string>)
    requires AllReturns(a) && Extras(keys, rest) == rest
    ensures a + Extras(keys, Cascade(keys, a) + rest) == Cascade(keys, a) + rest
  {
    var c := Cascade(keys, a);
    CascadeIsFixed(keys, a);
    ExtrasAppend(keys, c, rest);
    Sequences.Associate(a, Extras(keys, c), rest);
  }

  lemma ReturnsBefore(keys: seq<string>, a: seq<string>)
    requires (forall l :: l in a ==> IsOwn(keys, l)) && AllReturns(Extras(keys, a))
    ensures AllReturns(a)
  {
    forall l | l in a ensures OnlyReturns(l) {
      OwnStripped(keys, l);
      if StripCR(l) != "" {
        ExtraIsAmong(keys, a, l);
      }
      StrippedReturns(l);
    }
  }

  lemma OwnStripped(keys: seq<string>, l: string)
    requires IsOwn(keys, l)
    ensures StripCR(l) == "" || Kept(keys, StripCR(l))
  {
    KeyIgnoresCR(l);
    assert StripCR(l) == "" || StripCR(l)[0] == l[0];
  }

  lemma StrippedReturns(l: string)
    ensures OnlyReturns(StripCR(l)) ==> OnlyReturns(l)
  {
    if OnlyReturns(StripCR(l)) {
      forall i | 0 <= i < |l| ensures l[i] == '\r' {
        assert i < |StripCR(l)| ==> l[i] == StripCR(l)[i];
      }
    }
  }

  lemma {:induction false} ExtraIsAmong(keys: seq<string>, a: seq<string>, l: string)
    requires l in a && Kept(keys, StripCR(l))
    ensures StripCR(l) in Extras(keys, a)
  {
    if l == a[0] {
      assert Extra(keys, l) == [StripCR(l)];
    } else {
      ExtraIsAmong(keys, a[1..], l);
    }
  }

  lemma {:induction false} KeepingRestores(keys: seq<string>, a: seq<string>, ls: seq<string>)
    requires (forall l :: l in ls ==> IsOwn(keys, l)) && a + Extras(keys, ls) == ls
    ensures Restores(keys, a, ls)
    decreases |ls|
  {
    if a == [] {
      assert [] + Extras(keys, ls) == Extras(keys, ls);
      OwnOfOwn(keys, ls);
      ReadIsVerbatimIff(keys, ls);
    } else {
      var e := Extras(keys, ls);
      ExtrasAppend(keys, a, e);
      KeepingRestores(keys, Extras(keys, a), e);
      ReturnsBefore(keys, a);
      CascadeBefore(keys, a, e);
    }
  }

  lemma CascadeBefore(keys: seq<string>, a: seq<string>, e: seq<string>)
    requires a != [] && AllReturns(a) && Restores(keys, Extras(keys, a), e)
    ensures Restores(keys, a, a + e)
  {
    var c := Cascade(keys, Extras(keys, a));
    assert Cascade(keys, a) == a + c && (a + e)[|a + c|..] == e[|c|..];
  }

  /** Lines in front of what a read leaves give back the lines exactly in this case. */
  lemma KeptIffRestored(keys: seq<string>, a: seq<string>, ls: seq<string>)
    requires forall l :: l in ls ==> IsOwn(keys, l)
    ensures a + Extras(keys, ls) == ls <==> Restores(keys, a, ls)
  {
    if a + Extras(keys, ls) == ls {
      KeepingRestores(keys, a, ls);
    }
    if Restores(keys, a, ls) {
      RestoringKeeps(keys, a, ls);
    }
  }

  // ---- the key of a written line ----

  function Squeeze(s: string): string {
    if s == "" then "" else (if IsSpace(s[0]) then "" else [Lower(s[0])]) + Squeeze(s[1..])
  }

  /** The key of an assignment is the squeezed name, whatever the value. */
  lemma {:induction false} KeyOfAssignment(name: string, value: string)
    requires '=' !in name
    ensures Key(name + "=" + value) == Squeeze(name)
  {
    if name == "" {
      assert name + "=" + value == "=" + value;
    } else {
      assert (name + "=" + value)[1..] == name[1..] + "=" + value;
      KeyOfAssignment(name[1..], value);
    }
  }

  function LowerAll(s: string): (r: string)
    ensures |r| == |s| && forall i :: 0 <= i < |s| ==> r[i] == Lower(s[i])
  {
    seq(|s|, i requires 0 <= i < |s| => Lower(s[i]))
  }

  lemma {:induction false} SqueezeName(name: string)
    requires forall i :: 0 <= i < |name| ==> !IsSpace(name[i])
    ensures Squeeze(name + " ") == LowerAll(name)
  {
    if name == "" {
      assert name + " " == " ";
      assert Squeeze(" ") == "" + Squeeze(" "[1..]);
    } else {
      assert (name + " ")[1..] == name[1..] + " ";
      SqueezeName(name[1..]);
      assert LowerAll(name) == [Lower(name[0])] + LowerAll(name[1..]);
    }
  }

  /** The key of a line, character by character: it ends at the first equals sign, white space does not count, and
      capital letters count as small ones. */
  lemma KeyByCharacter(c: char, rest: string)
    ensures Key("") == "" && Key(['='] + rest) == ""
    ensures c == ' ' || c == '\t' || c == '\r' || c as int == 11 || c as int == 12 ==> Key([c] + rest) == Key(rest)
    ensures 'A' <= c <= 'Z' ==> Key([c] + rest) == [(c as int + 32) as char] + Key(rest)
    ensures '!' <= c <= '~' && c != '=' && !('A' <= c <= 'Z') ==> Key([c] + rest) == [c] + Key(rest)
  {
    assert ([c] + rest)[1..] == rest;
  }

  /** The five lines that the program manages: their names, and their keys when read back. */
  const NAMES: seq<string> := ["Mode", "Host", "Port", "Username", "Password"]
  const MANAGED_KEYS: seq<string> := ["mode", "host", "port", "username", "password"]

  datatype Pool = Pool(host: string, port: string, user: string, pass: string)

  function ValueOf(p: Pool, i: nat): string
    requires i < 5
  {
    match i
    case 0 => "Pool"
    case 1 => p.host
    case 2 => if p.port == "" then "28338" else p.port
    case 3 => p.user
    case 4 => if p.pass == "" then "x" else p.pass
  }

  function Assignment(name: string, value: string): string {
    name + " " + "=" + " " + value
  }

  function ManagedLine(p: Pool, i: nat): string
    requires i < 5
  {
    Assignment(NAMES[i], ValueOf(p, i))
  }

  function ManagedLines(p: Pool): (ls: seq<string>)
    ensures |ls| == 5
  {
    seq(5, i requires 0 <= i < 5 => ManagedLine(p, i))
  }

  lemma LowerNames(i: nat)
    requires i < 5
    ensures LowerAll(NAMES[i]) == MANAGED_KEYS[i]
    ensures '=' !in NAMES[i] && '\n' !in NAMES[i] && |NAMES[i]| > 0
    ensures forall k :: 0 <= k < |NAMES[i]| ==> !IsSpace(NAMES[i][k])
  {
  }

  lemma AssignmentKey(i: nat, value: string)
    requires i < 5
    ensures Assigns(Assignment(NAMES[i], value), MANAGED_KEYS[i])
  {
    LowerNames(i);
    FirstLetters(i);
    var name := NAMES[i];
    KeyOfAssignment(name + " ", " " + value);
    assert Assignment(name, value) == (name + " ") + "=" + (" " + value);
    SqueezeName(name);
    assert Assignment(name, value)[0] == name[0];
  }

  lemma FirstLetters(i: nat)
    requires i < 5
    ensures NAMES[i][0] != '#'
  {
  }

  /** A text in front of a value becomes part of the value's first line. */
  lemma PiecesAfter(a: string, v: string)
    requires OneLine(a)
    ensures Pieces(a + v) == [a + Pieces(v)[0]] + Pieces(v)[1..] && (OneLine(a + v) <==> OneLine(v))
  {
    OneLineIff(v);
    if OneLine(v) {
      OneLineIff(a + v);
    } else {
      var line, more := SplitAtNewline(v);
      PiecesFirst(line, more);
      PiecesAfterFirst(a, line, more);
    }
  }

  lemma PiecesAfterFirst(a: string, line: string, more: string)
    requires OneLine(a) && OneLine(line)
    ensures Pieces(a + (line + "\n" + more)) == [a + line] + Pieces(more) && !OneLine(a + (line + "\n" + more))
  {
    assert a + (line + "\n" + more) == (a + line) + "\n" + more;
    PiecesFirst(a + line, more);
    NotOneLine(a + line, more);
  }

  lemma NotOneLine(a: string, b: string)
    ensures !OneLine(a + "\n" + b)
  {
    assert (a + "\n" + b)[|a|] == '\n';
  }

  /** The first line of a managed text assigns its key; the other lines are those of the value. */
  lemma ManagedPieces(p: Pool, i: nat)
    requires i < 5
    ensures Assigns(Pieces(ManagedLine(p, i))[0], MANAGED_KEYS[i])
    ensures Pieces(ManagedLine(p, i))[1..] == Pieces(ValueOf(p, i))[1..]
    ensures OneLine(ManagedLine(p, i)) <==> OneLine(ValueOf(p, i))
  {
    LowerNames(i);
    var name, v := NAMES[i], ValueOf(p, i);
    var a := name + " " + "=" + " ";
    PiecesAfter(a, v);
    AssignmentKey(i, Pieces(v)[0]);
    assert Assignment(name, v) == a + v && Assignment(name, Pieces(v)[0]) == a + Pieces(v)[0];
  }

  // ---- the file over restarts ----

  predicate IsComment(line: string) {
    line != "" && line[0] == '#' && OneLine(line)
  }

  /** What the program writes in front of the extra lines. */
  function Head(header: string, p: Pool): seq<string> {
    [header] + ManagedLines(p)
  }

  function ExtrasOf(text: string): seq<string> {
    Extras(MANAGED_KEYS, Lines(text))
  }

  function Rewrite(header: string, p: Pool, text: string): string {
    Join(Head(header, p) + ExtrasOf(text))
  }

  /** `writeRieMinerConf`; when the file cannot be opened it stays as it is. */
  method WriteConf(text: string, header: string, p: Pool, canWrite: bool) returns (text': string, ok: bool)
    ensures ok == canWrite
    ensures text' == if canWrite then Rewrite(header, p, text) else text
  {
    var extra := ReadExtraLines(MANAGED_KEYS, text);
    if !canWrite {
      return text, false;
    }
    text' := Put("", [], [header] + ManagedLines(p));
    assert [] + Head(header, p) == Head(header, p);
    text' := Put(text', Head(header, p), extra);
    ok := true;
  }

  predicate Assigns(line: string, key: string) {
    line != "" && line[0] != '#' && Key(line) == key
  }

  /** The first line of each text assigns its key, and no two keys are the same. */
  ghost predicate LeadsKeys(ms: seq<string>, keys: seq<string>) {
    && |ms| == |keys|
    && (forall i :: 0 <= i < |ms| ==> Assigns(Pieces(ms[i])[0], keys[i]))
    && (forall i, j :: 0 <= i < j < |keys| ==> keys[i] != keys[j])
  }

  lemma KeysAreDistinct(i: nat, j: nat)
    requires i < 5 && j < 5 && i != j
    ensures MANAGED_KEYS[i] != MANAGED_KEYS[j]
  {
    assert |MANAGED_KEYS[3]| == 8 && |MANAGED_KEYS[4]| == 8;
    assert MANAGED_KEYS[3][0] == 'u' && MANAGED_KEYS[4][0] == 'p';
    assert MANAGED_KEYS[0][0] == 'm' && MANAGED_KEYS[1][0] == 'h' && MANAGED_KEYS[2][0] == 'p';
    assert |MANAGED_KEYS[2]| == 4;
  }

  lemma ManagedLinesLead(p: Pool)
    ensures LeadsKeys(ManagedLines(p), MANAGED_KEYS)
  {
    forall i | 0 <= i < 5 ensures Assigns(Pieces(ManagedLines(p)[i])[0], MANAGED_KEYS[i]) {
      ManagedPieces(p, i);
    }
    forall i, j | 0 <= i < j < 5 ensures MANAGED_KEYS[i] != MANAGED_KEYS[j] {
      KeysAreDistinct(i, j);
    }
  }

  /** What a rewritten file holds, for every pool and every old text. */
  lemma LinesOfRewrite(header: string, p: Pool, text: string)
    ensures AreExtras(MANAGED_KEYS, ExtrasOf(text))
    ensures Lines(Rewrite(header, p, text)) == Flat(Head(header, p)) + ExtrasOf(text)
  {
    LinesAreOneLine(text);
    ExtrasAreExtras(MANAGED_KEYS, Lines(text));
    LinesOfTexts(Head(header, p) + ExtrasOf(text));
    FlatAppend(Head(header, p), ExtrasOf(text));
    FlatOfLines(ExtrasOf(text));
  }

  /** The values of the five managed lines. */
  function Values(p: Pool): (vs: seq<string>)
    ensures |vs| == 5
  {
    seq(5, i requires 0 <= i < 5 => ValueOf(p, i))
  }

  lemma HeadPieces(header: string, p: Pool)
    requires IsComment(header)
    ensures Flat(Head(header, p)) == [header] + Flat(ManagedLines(p))
  {
    OneLineIff(header);
    assert Head(header, p)[1..] == ManagedLines(p);
  }

  // ---- the user's lines after a start ----

  /** The lines that texts bring along behind their first lines and that a read keeps. */
  function Smuggled(keys: seq<string>, vs: seq<string>): seq<string> {
    if vs == [] then [] else Extras(keys, Pieces(vs[0])[1..]) + Smuggled(keys, vs[1..])
  }

  lemma {:induction false} SmuggledIsByPieces(keys: seq<string>, ls: seq<string>, vs: seq<string>)
    requires |ls| == |vs| && forall i :: 0 <= i < |ls| ==> Pieces(ls[i])[1..] == Pieces(vs[i])[1..]
    ensures Smuggled(keys, ls) == Smuggled(keys, vs)
  {
    if ls != [] {
      SmuggledIsByPieces(keys, ls[1..], vs[1..]);
    }
  }

  lemma DropFirst(keys: seq<string>, ls: seq<string>)
    requires ls != [] && Dropped(keys, ls[0])
    ensures Extras(keys, ls) == Extras(keys, ls[1..])
  {
    DroppedLines(keys, [ls[0]]);
    assert Extras(keys, [ls[0]]) == Extra(keys, ls[0]);
  }

  lemma {:induction false} ExtrasOfFlat(keys: seq<string>, ls: seq<string>)
    requires forall l :: l in ls ==> Dropped(keys, Pieces(l)[0])
    ensures Extras(keys, Flat(ls)) == Smuggled(keys, ls)
  {
    if ls != [] {
      var ps := Pieces(ls[0]);
      assert ls[0] in ls;
      ExtrasOfFlat(keys, ls[1..]);
      ExtrasAppend(keys, ps, Flat(ls[1..]));
      DropFirst(keys, ps);
    }
  }

  lemma LeadsAreDropped(keys: seq<string>, ms: seq<string>)
    requires LeadsKeys(ms, keys)
    ensures forall l :: l in ms ==> Dropped(keys, Pieces(l)[0])
  {
    forall l | l in ms ensures Dropped(keys, Pieces(l)[0]) {
      var i :| 0 <= i < |ms| && l == ms[i];
      assert Assigns(Pieces(ms[i])[0], keys[i]);
    }
  }

  /** What a read finds in a rewritten file, for every pool and every old text: the lines that the pool's
      values smuggle in, and then what a second read leaves of the user's lines. */
  lemma ExtrasAfterStart(header: string, p: Pool, text: string)
    requires IsComment(header)
    ensures ExtrasOf(Rewrite(header, p, text)) == Smuggled(MANAGED_KEYS, Values(p)) + Extras(MANAGED_KEYS, ExtrasOf(text))
  {
    LinesOfRewrite(header, p, text);
    HeadPieces(header, p);
    var ms := ManagedLines(p);
    ManagedLinesLead(p);
    LeadsAreDropped(MANAGED_KEYS, ms);
    ExtrasOfFlat(MANAGED_KEYS, ms);
    ManagedSmuggle(p);
    CommentThenLines(MANAGED_KEYS, header, Flat(ms), ExtrasOf(text));
  }

  lemma ManagedSmuggle(p: Pool)
    ensures Smuggled(MANAGED_KEYS, ManagedLines(p)) == Smuggled(MANAGED_KEYS, Values(p))
  {
    forall i | 0 <= i < 5 ensures Pieces(ManagedLines(p)[i])[1..] == Pieces(Values(p)[i])[1..] {
      ManagedPieces(p, i);
    }
    SmuggledIsByPieces(MANAGED_KEYS, ManagedLines(p), Values(p));
  }

  lemma CommentThenLines(keys: seq<string>, header: string, a: seq<string>, b: seq<string>)
    requires IsComment(header)
    ensures Extras(keys, [header] + a + b) == Extras(keys, a) + Extras(keys, b)
  {
    ExtrasAppend(keys, [header] + a, b);
    DropFirst(keys, [header] + a);
    assert ([header] + a)[1..] == a;
  }

  lemma ExtrasAreOwn(keys: seq<string>, ex: seq<string>)
    requires AreExtras(keys, ex)
    ensures forall l :: l in ex ==> IsOwn(keys, l)
  {
  }

  /** No kept line still ends in a carriage return. */
  predicate NoReturns(ex: seq<string>) {
    forall l :: l in ex ==> !EndsInCR(l)
  }

  lemma {:induction false} RereadKeepsCount(keys: seq<string>, ex: seq<string>)
    requires AreExtras(keys, ex) && "\r" !in ex
    ensures |Extras(keys, ex)| == |ex|
  {
    if ex != [] {
      var l := ex[0];
      assert Kept(keys, l) && l != "\r";
      KeyIgnoresCR(l);
      assert StripCR(l) != "" && StripCR(l)[0] == l[0];
      RereadKeepsCount(keys, ex[1..]);
    }
  }

  lemma PrefixIsEmpty(a: seq<string>, b: seq<string>, c: seq<string>)
    requires a + b == c && |b| == |c|
    ensures a == [] && b == c
  {
    assert |a + b| == |a| + |b|;
    assert a == [];
  }

  /** A start leaves the user's lines alone exactly when what the pool smuggles in makes up for the carriage
      returns that a read takes away. This is so exactly when none of the lines still ends in one, if the pool
      smuggles nothing; exactly when the pool smuggles nothing, if none ends in one; and exactly when both
      hold, unless some line is a bare carriage return. */
  lemma StartKeepsExtrasIff(header: string, p: Pool, text: string)
    requires IsComment(header)
    ensures var kept := ExtrasOf(Rewrite(header, p, text)) == ExtrasOf(text);
            var nothingAdded := Smuggled(MANAGED_KEYS, Values(p)) == [];
            && (kept <==> Restores(MANAGED_KEYS, Smuggled(MANAGED_KEYS, Values(p)), ExtrasOf(text)))
            && (nothingAdded ==> (kept <==> NoReturns(ExtrasOf(text))))
            && (NoReturns(ExtrasOf(text)) ==> (kept <==> nothingAdded))
            && ("\r" !in ExtrasOf(text) ==> (kept <==> nothingAdded && NoReturns(ExtrasOf(text))))
  {
    ExtrasAfterStart(header, p, text);
    LinesOfRewrite(header, p, text);
    KeptIff(MANAGED_KEYS, Smuggled(MANAGED_KEYS, Values(p)), ExtrasOf(text));
    ExtrasAreOwn(MANAGED_KEYS, ExtrasOf(text));
    KeptIffRestored(MANAGED_KEYS, Smuggled(MANAGED_KEYS, Values(p)), ExtrasOf(text));
  }

  lemma KeptIff(keys: seq<string>, added: seq<string>, ex: seq<string>)
    requires AreExtras(keys, ex)
    ensures var kept := added + Extras(keys, ex) == ex;
            && (added == [] ==> (kept <==> NoReturns(ex)))
            && (NoReturns(ex) ==> (kept <==> added == []))
            && ("\r" !in ex ==> (kept <==> added == [] && NoReturns(ex)))
  {
    var again := Extras(keys, ex);
    RereadIff(keys, ex);
    assert [] + again == again;
    if added + again == ex && |again| == |ex| {
      PrefixIsEmpty(added, again, ex);
    }
    if "\r" !in ex {
      RereadKeepsCount(keys, ex);
    }
  }

  /** The last condition is needed: a bare carriage return that a start loses can be brought back by the
      same start. */
  lemma BareReturnComesBack(header: string, p: Pool, text: string)
    requires IsComment(header) && ExtrasOf(text) == ["\r"] && Smuggled(MANAGED_KEYS, Values(p)) == ["\r"]
    ensures ExtrasOf(Rewrite(header, p, text)) == ExtrasOf(text)
  {
    ExtrasAfterStart(header, p, text);
    assert StripCR("\r") == "";
    assert Extras(MANAGED_KEYS, ["\r"]) == [];
  }

  predicate OneLinePool(p: Pool) {
    OneLine(p.host) && OneLine(p.port) && OneLine(p.user) && OneLine(p.pass)
  }

  lemma {:induction false} OneLineSmugglesNothing(keys: seq<string>, vs: seq<string>)
    requires forall v :: v in vs ==> OneLine(v)
    ensures Smuggled(keys, vs) == []
  {
    if vs != [] {
      OneLineIff(vs[0]);
      OneLineSmugglesNothing(keys, vs[1..]);
    }
  }

  lemma OneLineValues(p: Pool)
    requires OneLinePool(p)
    ensures forall v :: v in Values(p) ==> OneLine(v)
  {
  }

  /** A value of two lines adds its second line to the user's lines, if a read keeps that line. */
  lemma NewlineAddsALine(header: string, p: Pool, i: nat, first: string, second: string, text: string)
    requires IsComment(header) && i < 5 && ValueOf(p, i) == first + "\n" + second && OneLine(first) && OneLine(second)
    requires forall j :: 0 <= j < 5 && j != i ==> OneLine(ValueOf(p, j))
    ensures ExtrasOf(Rewrite(header, p, text)) == Extra(MANAGED_KEYS, second) + Extras(MANAGED_KEYS, ExtrasOf(text))
  {
    ExtrasAfterStart(header, p, text);
    var vs := Values(p);
    PiecesFirst(first, second);
    OneLineIff(second);
    assert Pieces(vs[i])[1..] == [second];
    SmuggledAt(MANAGED_KEYS, vs, i);
    assert Extras(MANAGED_KEYS, [second]) == Extra(MANAGED_KEYS, second);
  }

  lemma {:induction false} SmuggledAt(keys: seq<string>, vs: seq<string>, i: nat)
    requires i < |vs| && forall j :: 0 <= j < |vs| && j != i ==> OneLine(vs[j])
    ensures Smuggled(keys, vs) == Extras(keys, Pieces(vs[i])[1..])
  {
    if i == 0 {
      OneLineSmugglesNothing(keys, vs[1..]);
    } else {
      OneLineIff(vs[0]);
      SmuggledAt(keys, vs[1..], i - 1);
    }
  }

  // ---- the user's own lines as they stand, after a start ----

  /** The lines that texts bring along and that are neither a comment nor managed. */
  function Added(keys: seq<string>, vs: seq<string>): seq<string> {
    if vs == [] then [] else Own(keys, Pieces(vs[0])[1..]) + Added(keys, vs[1..])
  }

  lemma {:induction false} OwnOfFlat(keys: seq<string>, ls: seq<string>, vs: seq<string>)
    requires forall l :: l in ls ==> Dropped(keys, Pieces(l)[0])
    requires |ls| == |vs| && forall i :: 0 <= i < |ls| ==> Pieces(ls[i])[1..] == Pieces(vs[i])[1..]
    ensures Own(keys, Flat(ls)) == Added(keys, vs)
  {
    if ls != [] {
      var ps := Pieces(ls[0]);
      assert ls[0] in ls && !IsOwn(keys, ps[0]);
      OwnOfFlat(keys, ls[1..], vs[1..]);
      OwnAppend(keys, ps, Flat(ls[1..]));
    }
  }

  function OwnLines(text: string): seq<string> {
    Own(MANAGED_KEYS, Lines(text))
  }

  lemma OwnAfterStart(header: string, p: Pool, text: string)
    requires IsComment(header)
    ensures OwnLines(Rewrite(header, p, text)) == Added(MANAGED_KEYS, Values(p)) + ExtrasOf(text)
  {
    LinesOfRewrite(header, p, text);
    HeadPieces(header, p);
    var ms, ex := ManagedLines(p), ExtrasOf(text);
    ManagedLinesLead(p);
    LeadsAreDropped(MANAGED_KEYS, ms);
    forall i | 0 <= i < 5 ensures Pieces(ms[i])[1..] == Pieces(Values(p)[i])[1..] {
      ManagedPieces(p, i);
    }
    OwnOfFlat(MANAGED_KEYS, ms, Values(p));
    OwnBehindComment(MANAGED_KEYS, header, Flat(ms), ex);
    ExtrasAreOwn(MANAGED_KEYS, ex);
    OwnOfOwn(MANAGED_KEYS, ex);
  }

  lemma OwnBehind(keys: seq<string>, header: string, a: seq<string>)
    requires !IsOwn(keys, header)
    ensures Own(keys, [header] + a) == Own(keys, a)
  {
    assert ([header] + a)[1..] == a;
  }

  lemma OwnBehindComment(keys: seq<string>, header: string, a: seq<string>, b: seq<string>)
    requires IsComment(header)
    ensures Own(keys, [header] + a + b) == Own(keys, a) + Own(keys, b)
  {
    OwnAppend(keys, [header] + a, b);
    OwnBehind(keys, header, a);
  }

  /** Everything else survives a start verbatim exactly when what the pool adds makes up for what a read takes
      away. This is so exactly when none of the user's own lines is empty or ends in a carriage return, if the
      pool adds nothing; and exactly when the pool adds nothing, if none of them is or does. */
  lemma SurvivesVerbatimIff(header: string, p: Pool, text: string)
    requires IsComment(header)
    ensures var same := OwnLines(Rewrite(header, p, text)) == OwnLines(text);
            var clean := forall l :: l in OwnLines(text) ==> Clean(l);
            var added := Added(MANAGED_KEYS, Values(p));
            (same <==> Restores(MANAGED_KEYS, added, OwnLines(text))) && (added == [] ==> (same <==> clean)) && (clean ==> (same <==> added == []))
  {
    OwnAfterStart(header, p, text);
    ReadIsVerbatimIff(MANAGED_KEYS, Lines(text));
    OwnAreOwn(MANAGED_KEYS, Lines(text));
    var added, ex := Added(MANAGED_KEYS, Values(p)), ExtrasOf(text);
    KeptIffRestored(MANAGED_KEYS, added, OwnLines(text));
    assert [] + ex == ex;
    if added + ex == ex {
      PrefixIsEmpty(added, ex, ex);
    }
  }

  /** So a line of the user that is empty or ends in a carriage return does not survive as it stands. */
  lemma UncleanLineIsLost(header: string, p: Pool, line: string)
    requires IsComment(header) && Added(MANAGED_KEYS, Values(p)) == []
    requires OneLine(line) && IsOwn(MANAGED_KEYS, line) && !Clean(line)
    ensures OwnLines(line + "\n") == [line] && OwnLines(Rewrite(header, p, line + "\n")) != [line]
  {
    var text := line + "\n";
    LinesFirst(line, "");
    assert line + "\n" + "" == text;
    assert Own(MANAGED_KEYS, [line]) == [line];
    assert line in OwnLines(text);
    SurvivesVerbatimIff(header, p, text);
  }

  // ---- any number of starts ----

  /** One start: the pool it was given, and whether the file could be written. */
  datatype Start = Start(pool: Pool, canWrite: bool)

  function AfterStarts(header: string, text: string, starts: seq<Start>): string {
    if starts == [] then text
    else
      var before := AfterStarts(header, text, starts[..|starts| - 1]);
      var last := starts[|starts| - 1];
      if last.canWrite then Rewrite(header, last.pool, before) else before
  }

  predicate AddsNothing(s: Start) {
    s.canWrite ==> Smuggled(MANAGED_KEYS, Values(s.pool)) == []
  }

  /** The user's lines are the same sequence after each of the starts. */
  ghost predicate KeptThroughout(header: string, text: string, starts: seq<Start>) {
    starts == []
    || (KeptThroughout(header, text, starts[..|starts| - 1]) && ExtrasOf(AfterStarts(header, text, starts)) == ExtrasOf(text))
  }

  /** A start that keeps these lines. */
  predicate Keeps(s: Start, ex: seq<string>) {
    s.canWrite ==> Restores(MANAGED_KEYS, Smuggled(MANAGED_KEYS, Values(s.pool)), ex)
  }

  /** The user's lines survive any number of starts with any pools exactly when each start keeps them; with
      no carriage return left over, exactly when no start smuggles a line in. */
  lemma {:induction false} ExtrasSurviveStartsIff(header: string, text: string, starts: seq<Start>)
    requires IsComment(header)
    ensures KeptThroughout(header, text, starts) <==> forall s :: s in starts ==> Keeps(s, ExtrasOf(text))
    ensures NoReturns(ExtrasOf(text)) ==>
              (KeptThroughout(header, text, starts) <==> forall s :: s in starts ==> AddsNothing(s))
  {
    if starts != [] {
      var before, last := starts[..|starts| - 1], starts[|starts| - 1];
      ExtrasSurviveStartsIff(header, text, before);
      assert KeptThroughout(header, text, before) ==> ExtrasOf(AfterStarts(header, text, before)) == ExtrasOf(text);
      assert forall s :: s in starts <==> s in before || s == last;
      LastStart(header, text, AfterStarts(header, text, before), last);
    }
  }

  lemma LastStart(header: string, text: string, before: string, last: Start)
    requires IsComment(header)
    ensures var after := if last.canWrite then Rewrite(header, last.pool, before) else before;
            ExtrasOf(before) == ExtrasOf(text) ==>
              && (ExtrasOf(after) == ExtrasOf(text) <==> Keeps(last, ExtrasOf(text)))
              && (NoReturns(ExtrasOf(text)) ==> (ExtrasOf(after) == ExtrasOf(text) <==> AddsNothing(last)))
  {
    if last.canWrite && ExtrasOf(before) == ExtrasOf(text) {
      StartKeepsExtrasIff(header, last.pool, before);
    }
  }

  // ---- carriage returns over many starts ----

  /** How many carriage returns a line ends in. */
  function Returns(l: string): nat {
    if EndsInCR(l) then 1 + Returns(l[..|l| - 1]) else 0
  }

  /** The line without its last `n` carriage returns, as far as it has them. */
  function Stripped(l: string, n: nat): string {
    if n == 0 then l else StripCR(Stripped(l, n - 1))
  }

  /** The lines that are left when each has lost up to `n` carriage returns. */
  function Shorn(ex: seq<string>, n: nat): seq<string> {
    if ex == [] then [] else (if Stripped(ex[0], n) == "" then [] else [Stripped(ex[0], n)]) + Shorn(ex[1..], n)
  }

  lemma {:induction false} StrippedStays(l: string, n: nat)
    ensures Key(Stripped(l, n)) == Key(l) && (Stripped(l, n) != "" ==> l != "" && Stripped(l, n)[0] == l[0])
    ensures Returns(Stripped(l, n)) == if Returns(l) <= n then 0 else Returns(l) - n
    decreases n
  {
    if n > 0 {
      StrippedStays(l, n - 1);
      KeyIgnoresCR(Stripped(l, n - 1));
    }
  }

  lemma ShornLine(keys: seq<string>, l: string, n: nat)
    requires Kept(keys, l)
    ensures var now, next := Stripped(l, n), Stripped(l, n + 1);
            (if now == "" then [] else Extra(keys, now)) == (if next == "" then [] else [next])
  {
    StrippedStays(l, n + 1);
  }

  /** A read takes one more carriage return from each line. */
  lemma {:induction false} ShornStep(keys: seq<string>, ex: seq<string>, n: nat)
    requires AreExtras(keys, ex)
    ensures Extras(keys, Shorn(ex, n)) == Shorn(ex, n + 1)
  {
    if ex != [] {
      var now := Stripped(ex[0], n);
      assert Kept(keys, ex[0]);
      ShornStep(keys, ex[1..], n);
      ShornLine(keys, ex[0], n);
      if now != "" {
        ExtrasCons(keys, now, Shorn(ex[1..], n));
      } else {
        assert Shorn(ex, n) == Shorn(ex[1..], n);
      }
    }
  }

  lemma {:induction false} ShornOfNone(keys: seq<string>, ex: seq<string>)
    requires AreExtras(keys, ex)
    ensures Shorn(ex, 0) == ex
  {
    if ex != [] {
      assert Kept(keys, ex[0]);
      ShornOfNone(keys, ex[1..]);
    }
  }

  lemma {:induction false} ShornIsCleanIff(ex: seq<string>, n: nat)
    ensures NoReturns(Shorn(ex, n)) <==> forall l :: l in ex ==> Returns(l) <= n
  {
    if ex != [] {
      var l := Stripped(ex[0], n);
      StrippedStays(ex[0], n);
      assert EndsInCR(l) <==> Returns(l) > 0;
      ShornIsCleanIff(ex[1..], n);
      assert forall x :: x in ex <==> x == ex[0] || x in ex[1..];
      assert forall x :: x in Shorn(ex, n) <==> (x == l && l != "") || x in Shorn(ex[1..], n);
    }
  }

  /** How many of the starts wrote the file. */
  function Writes(starts: seq<Start>): nat {
    if starts == [] then 0 else Writes(starts[..|starts| - 1]) + if starts[|starts| - 1].canWrite then 1 else 0
  }

  /** What `n` reads leave. */
  function ReadAgain(keys: seq<string>, ex: seq<string>, n: nat): seq<string> {
    if n == 0 then ex else Extras(keys, ReadAgain(keys, ex, n - 1))
  }

  lemma {:induction false} ReadingShears(keys: seq<string>, ex: seq<string>, n: nat)
    requires AreExtras(keys, ex)
    ensures ReadAgain(keys, ex, n) == Shorn(ex, n)
    decreases n
  {
    if n == 0 {
      ShornOfNone(keys, ex);
    } else {
      ReadingShears(keys, ex, n - 1);
      ReadingShearsMore(keys, ex, n - 1, ReadAgain(keys, ex, n - 1));
    }
  }

  lemma ReadingShearsMore(keys: seq<string>, ex: seq<string>, n: nat, ls: seq<string>)
    requires AreExtras(keys, ex) && ls == Shorn(ex, n)
    ensures Extras(keys, ls) == Shorn(ex, n + 1)
  {
    ShornStep(keys, ex, n);
  }

  lemma QuietStartReads(header: string, p: Pool, text: string)
    requires IsComment(header) && Smuggled(MANAGED_KEYS, Values(p)) == []
    ensures ExtrasOf(Rewrite(header, p, text)) == Extras(MANAGED_KEYS, ExtrasOf(text))
  {
    ExtrasAfterStart(header, p, text);
  }

  lemma {:induction false} QuietStartsRead(header: string, text: string, starts: seq<Start>)
    requires IsComment(header) && forall s :: s in starts ==> AddsNothing(s)
    ensures ExtrasOf(AfterStarts(header, text, starts)) == ReadAgain(MANAGED_KEYS, ExtrasOf(text), Writes(starts))
  {
    if starts != [] {
      var before, last := starts[..|starts| - 1], starts[|starts| - 1];
      QuietStartsRead(header, text, before);
      assert AddsNothing(last);
      if last.canWrite {
        QuietStartReads(header, last.pool, AfterStarts(header, text, before));
      }
    }
  }

  lemma ReadGivesExtras(text: string)
    ensures AreExtras(MANAGED_KEYS, ExtrasOf(text))
  {
    LinesAreOneLine(text);
    ExtrasAreExtras(MANAGED_KEYS, Lines(text));
  }

  /** With pools that smuggle nothing in, each start that writes the file takes one more carriage return from
      each of the user's lines that has one left. */
  lemma StartsStripReturns(header: string, text: string, starts: seq<Start>)
    requires IsComment(header) && forall s :: s in starts ==> AddsNothing(s)
    ensures ExtrasOf(AfterStarts(header, text, starts)) == Shorn(ExtrasOf(text), Writes(starts))
  {
    QuietStartsRead(header, text, starts);
    ReadGivesExtras(text);
    ReadingShears(MANAGED_KEYS, ExtrasOf(text), Writes(starts));
  }

  /** So the user's lines are fixed exactly once as many starts have written the file as the longest run of
      carriage returns at the end of a line. */
  lemma LinesSettleIff(header: string, text: string, starts: seq<Start>, p: Pool)
    requires IsComment(header) && (forall s :: s in starts ==> AddsNothing(s)) && Smuggled(MANAGED_KEYS, Values(p)) == []
    ensures var after := AfterStarts(header, text, starts);
            ExtrasOf(Rewrite(header, p, after)) == ExtrasOf(after) <==> forall l :: l in ExtrasOf(text) ==> Returns(l) <= Writes(starts)
  {
    StartsStripReturns(header, text, starts);
    StartKeepsExtrasIff(header, p, AfterStarts(header, text, starts));
    ShornIsCleanIff(ExtrasOf(text), Writes(starts));
  }

  /** In particular with pools that hold no newline. */
  lemma ExtrasSurviveStarts(header: string, text: string, starts: seq<Start>)
    requires IsComment(header) && NoReturns(ExtrasOf(text))
    requires forall s :: s in starts ==> OneLinePool(s.pool)
    ensures KeptThroughout(header, text, starts) && ExtrasOf(AfterStarts(header, text, starts)) == ExtrasOf(text)
  {
    forall s | s in starts ensures AddsNothing(s) {
      OneLineValues(s.pool);
      OneLineSmugglesNothing(MANAGED_KEYS, Values(s.pool));
    }
    ExtrasSurviveStartsIff(header, text, starts);
  }

  // ---- one line per managed key ----

  function Assignments(lines: seq<string>, key: string): seq<string> {
    if lines == [] then [] else (if Assigns(lines[0], key) then [lines[0]] else []) + Assignments(lines[1..], key)
  }

  lemma AssignmentsCons(l: string, ls: seq<string>, key: string)
    ensures Assignments([l] + ls, key) == (if Assigns(l, key) then [l] else []) + Assignments(ls, key)
  {
    assert ([l] + ls)[1..] == ls;
  }

  lemma {:induction false} AssignmentsAppend(a: seq<string>, b: seq<string>, key: string)
    ensures Assignments(a + b, key) == Assignments(a, key) + Assignments(b, key)
  {
    if a == [] {
      assert a + b == b;
    } else {
      var l, rest := a[0], a[1..];
      AssignmentsAppend(rest, b, key);
      AssignmentsCons(l, rest + b, key);
      assert a + b == [l] + (rest + b);
      Sequences.Associate(if Assigns(l, key) then [l] else [], Assignments(rest, key), Assignments(b, key));
    }
  }

  lemma {:induction false} NoAssignment(lines: seq<string>, key: string)
    requires forall l :: l in lines ==> !Assigns(l, key)
    ensures Assignments(lines, key) == []
  {
    if lines != [] {
      assert lines[0] in lines;
      NoAssignment(lines[1..], key);
    }
  }

  /** The lines behind the first one do not assign the key. */
  predicate LeavesAlone(s: string, key: string) {
    Assignments(Pieces(s)[1..], key) == []
  }

  lemma {:induction false} FlatIsFree(ls: seq<string>, key: string)
    requires forall l :: l in ls ==> !Assigns(Pieces(l)[0], key)
    ensures Assignments(Flat(ls), key) == [] <==> forall l :: l in ls ==> LeavesAlone(l, key)
  {
    if ls != [] {
      var ps := Pieces(ls[0]);
      assert ls[0] in ls && !Assigns(ps[0], key);
      FlatIsFree(ls[1..], key);
      AssignmentsAppend(ps, Flat(ls[1..]), key);
      assert Assignments(ps, key) == Assignments(ps[1..], key);
      assert forall l :: l in ls <==> l == ls[0] || l in ls[1..];
    }
  }

  lemma TheOnlyOne(a: seq<string>, x: string, b: seq<string>, y: string)
    ensures a + ([x] + b) == [y] <==> a == [] && b == [] && x == y
  {
    if a + ([x] + b) == [y] {
      assert |a| + 1 + |b| == 1;
      assert (a + ([x] + b))[0] == x;
    }
  }

  lemma OthersDoNotAssign(keys: seq<string>, ms: seq<string>, i: nat, j: nat)
    requires LeadsKeys(ms, keys) && i < |ms| && j < |ms| && i != j
    ensures !Assigns(Pieces(ms[j])[0], keys[i])
  {
    assert Key(Pieces(ms[j])[0]) == keys[j];
  }

  lemma FirstAndRest(ps: seq<string>, b: seq<string>)
    requires ps != []
    ensures ps + b == [ps[0]] + (ps[1..] + b)
  {
  }

  lemma FlatAround(a: seq<string>, x: string, b: seq<string>)
    ensures Flat(a + ([x] + b)) == Flat(a) + ([Pieces(x)[0]] + (Pieces(x)[1..] + Flat(b)))
  {
    FlatAppend(a, [x] + b);
    assert ([x] + b)[1..] == b;
    FirstAndRest(Pieces(x), Flat(b));
  }

  lemma FlatAt(ms: seq<string>, i: nat)
    requires i < |ms|
    ensures Flat(ms) == Flat(ms[..i]) + ([Pieces(ms[i])[0]] + (Pieces(ms[i])[1..] + Flat(ms[i + 1..])))
  {
    var a, x, b := SplitAt(ms, i);
    FlatAround(a, x, b);
  }

  lemma SplitAt(ms: seq<string>, i: nat) returns (a: seq<string>, x: string, b: seq<string>)
    requires i < |ms|
    ensures a == ms[..i] && x == ms[i] && b == ms[i + 1..] && ms == a + ([x] + b)
  {
    a, x, b := ms[..i], ms[i], ms[i + 1..];
  }

  lemma AssignmentsAround(a: seq<string>, x: string, m: seq<string>, b: seq<string>, key: string)
    requires Assigns(x, key)
    ensures Assignments(a + ([x] + (m + b)), key)
            == Assignments(a, key) + ([x] + (Assignments(m, key) + Assignments(b, key)))
  {
    AssignmentsAppend(a, [x] + (m + b), key);
    assert ([x] + (m + b))[1..] == m + b;
    AssignmentsAppend(m, b, key);
  }

  /** Among texts that lead the keys, exactly one line assigns a key, and it is the text as it stands,
      exactly when that text is one line and no text assigns the key further down. */
  lemma OneAssignmentIff(keys: seq<string>, ms: seq<string>, i: nat)
    requires LeadsKeys(ms, keys) && i < |ms|
    ensures Assignments(Flat(ms), keys[i]) == [ms[i]] <==> OneLine(ms[i]) && forall l :: l in ms ==> LeavesAlone(l, keys[i])
  {
    var key, ps, a, b := keys[i], Pieces(ms[i]), ms[..i], ms[i + 1..];
    FlatAt(ms, i);
    AssignmentsAround(Flat(a), ps[0], ps[1..], Flat(b), key);
    forall l | l in a || l in b ensures !Assigns(Pieces(l)[0], key) {
      var j :| 0 <= j < |ms| && j != i && l == ms[j];
      OthersDoNotAssign(keys, ms, i, j);
    }
    FlatIsFree(a, key);
    FlatIsFree(b, key);
    TheOnlyOne(Assignments(Flat(a), key), ps[0], Assignments(ps[1..], key) + Assignments(Flat(b), key), ms[i]);
    FirstPiece(ms[i]);
    assert forall l :: l in ms <==> l in a || l == ms[i] || l in b;
  }

  lemma FirstPiece(s: string)
    ensures Pieces(s)[0] == s <==> OneLine(s)
  {
    OneLineIff(s);
    if !OneLine(s) {
      assert |Pieces(s)[0]| < |s|;
    }
  }

  lemma OnlyInTheMiddle(header: string, lines: seq<string>, ex: seq<string>, keys: seq<string>, key: string)
    requires IsComment(header) && AreExtras(keys, ex) && key in keys
    ensures Assignments([header] + lines + ex, key) == Assignments(lines, key)
  {
    AssignmentsAppend([header] + lines, ex, key);
    assert ([header] + lines)[1..] == lines;
    NoAssignment(ex, key);
  }

  /** Right after a start, for every pool and every old text: the file holds exactly one line for a managed
      key, with the value of that start, exactly when that value is one line and no value of the pool
      assigns the key in a line of its own. */
  lemma OneLinePerKeyIff(header: string, p: Pool, text: string, i: nat)
    requires IsComment(header) && i < 5
    ensures Assignments(Lines(Rewrite(header, p, text)), MANAGED_KEYS[i]) == [ManagedLine(p, i)]
            <==> OneLine(ValueOf(p, i)) && forall v :: v in Values(p) ==> LeavesAlone(v, MANAGED_KEYS[i])
  {
    LinesOfRewrite(header, p, text);
    HeadPieces(header, p);
    var ms, key := ManagedLines(p), MANAGED_KEYS[i];
    OnlyInTheMiddle(header, Flat(ms), ExtrasOf(text), MANAGED_KEYS, key);
    ManagedLinesLead(p);
    OneAssignmentIff(MANAGED_KEYS, ms, i);
    ManagedPieces(p, i);
    ValuesLeaveAloneIff(p, key);
  }

  lemma ValuesLeaveAloneIff(p: Pool, key: string)
    ensures (forall l :: l in ManagedLines(p) ==> LeavesAlone(l, key)) <==> forall v :: v in Values(p) ==> LeavesAlone(v, key)
  {
    var ms, vs := ManagedLines(p), Values(p);
    forall j | 0 <= j < 5 ensures LeavesAlone(ms[j], key) == LeavesAlone(vs[j], key) && ms[j] in ms && vs[j] in vs {
      ManagedPieces(p, j);
    }
  }

  /** In particular with a pool that holds no newline. */
  lemma OneLinePerKey(header: string, p: Pool, text: string, i: nat)
    requires IsComment(header) && OneLinePool(p) && i < 5
    ensures Assignments(Lines(Rewrite(header, p, text)), MANAGED_KEYS[i]) == [ManagedLine(p, i)]
  {
    OneLinePerKeyIff(header, p, text, i);
    OneLineValues(p);
    assert ValueOf(p, i) == Values(p)[i];
    forall v | v in Values(p) ensures LeavesAlone(v, MANAGED_KEYS[i]) {
      OneLineIff(v);
    }
  }

  lemma ManagedLinesSpelled(p: Pool)
    ensures ManagedLine(p, 0) == "Mode = Pool"
    ensures ManagedLine(p, 1) == "Host = " + p.host
    ensures ManagedLine(p, 2) == "Port = " + (if p.port == "" then "28338" else p.port)
    ensures ManagedLine(p, 3) == "Username = " + p.user
    ensures ManagedLine(p, 4) == "Password = " + (if p.pass == "" then "x" else p.pass)
  {
    assert "Mode" + " " + "=" + " " == "Mode = " && "Host" + " " + "=" + " " == "Host = " && "Port" + " " + "=" + " " == "Port = ";
    assert "Username" + " " + "=" + " " == "Username = " && "Password" + " " + "=" + " " == "Password = ";
    assert "Mode = " + "Pool" == "Mode = Pool";
  }

  lemma ManagedLinesAreOneLine(p: Pool)
    requires OneLinePool(p)
    ensures forall l :: l in ManagedLines(p) ==> OneLine(l)
  {
    forall i | 0 <= i < 5 ensures OneLine(ManagedLines(p)[i]) {
      ManagedPieces(p, i);
      OneLineValues(p);
      assert Values(p)[i] == ValueOf(p, i);
    }
  }

  lemma HeadIsOneLineEach(header: string, p: Pool)
    requires IsComment(header) && OneLinePool(p)
    ensures Flat(Head(header, p)) == [header] + ManagedLines(p)
  {
    HeadPieces(header, p);
    ManagedLinesAreOneLine(p);
    FlatOfLines(ManagedLines(p));
  }

  lemma FiveLines(p: Pool)
    ensures ManagedLines(p) == [ManagedLine(p, 0), ManagedLine(p, 1), ManagedLine(p, 2), ManagedLine(p, 3), ManagedLine(p, 4)]
  {
  }

  /** The whole file, for a pool that holds no newline: the header, the pool, and the user's lines. */
  lemma WholeFileSpelled(header: string, p: Pool, text: string)
    requires IsComment(header) && OneLinePool(p)
    ensures Lines(Rewrite(header, p, text))
            == [header] + ["Mode = Pool", "Host = " + p.host, "Port = " + (if p.port == "" then "28338" else p.port),
                           "Username = " + p.user, "Password = " + (if p.pass == "" then "x" else p.pass)] + ExtrasOf(text)
  {
    LinesOfRewrite(header, p, text);
    HeadIsOneLineEach(header, p);
    FiveLines(p);
    ManagedLinesSpelled(p);
  }

  /** Line by line, for a pool that holds no newline: after a start the file says where to mine, as whom and with which
      password, once each, and with the defaults for an empty port or password. */
  lemma FileSaysThePool(header: string, p: Pool, text: string)
    requires IsComment(header) && OneLinePool(p)
    ensures var lines := Lines(Rewrite(header, p, text));
            && Assignments(lines, "mode") == ["Mode = Pool"]
            && Assignments(lines, "host") == ["Host = " + p.host]
            && Assignments(lines, "port") == ["Port = " + (if p.port == "" then "28338" else p.port)]
            && Assignments(lines, "username") == ["Username = " + p.user]
            && Assignments(lines, "password") == ["Password = " + (if p.pass == "" then "x" else p.pass)]
  {
    ManagedLinesSpelled(p);
    OneLinePerKey(header, p, text, 0);
    OneLinePerKey(header, p, text, 1);
    OneLinePerKey(header, p, text, 2);
    OneLinePerKey(header, p, text, 3);
    OneLinePerKey(header, p, text, 4);
  }

  /** A value that assigns a managed key in its second line breaks this, as the user `a\nHost = b` does for
      the host. */
  lemma NewlineSetsKey(header: string, p: Pool, i: nat, j: nat, first: string, value: string, text: string)
    requires IsComment(header) && i < 5 && j < 5 && OneLine(first) && OneLine(value)
    requires ValueOf(p, j) == first + "\n" + Assignment(NAMES[i], value)
    ensures Assignments(Lines(Rewrite(header, p, text)), MANAGED_KEYS[i]) != [ManagedLine(p, i)]
  {
    OneLinePerKeyIff(header, p, text, i);
    AssignmentKey(i, value);
    AssignmentIsOneLine(i, value);
    SecondLineAssigns(first, Assignment(NAMES[i], value), MANAGED_KEYS[i]);
    assert Values(p)[j] == ValueOf(p, j);
  }

  lemma AssignmentIsOneLine(i: nat, value: string)
    requires i < 5 && OneLine(value)
    ensures OneLine(Assignment(NAMES[i], value))
  {
    LowerNames(i);
  }

  lemma SecondLineAssigns(first: string, second: string, key: string)
    requires OneLine(first) && OneLine(second) && Assigns(second, key)
    ensures !LeavesAlone(first + "\n" + second, key)
  {
    OneLineIff(second);
    PiecesFirst(first, second);
    assert Pieces(first + "\n" + second)[1..] == [second];
    assert Assignments([second], key) == [second];
  }
}
