/** The tokeniser of chrono format specifications (`parse_chrono_format` of src/3rdparty/fmt/chrono.h)
    and its two users: the checker that runs when a format string is parsed, and the formatter that
    runs when a duration is printed. */
module ChronoFormat {
  import opened Basics

  /** What a handler is asked to do. */
  datatype Action = Copy(text: string) | Convert(conversion: char, alternative: bool)

  /** An action and the range of the format string it comes from. */
  datatype Piece = Piece(lo: nat, hi: nat, action: Action)

  /** `Failed` is a thrown `format_error`. */
  datatype Outcome = Failed | Done(pos: nat, pieces: seq<Piece>)

  datatype Handler = Checker | Formatter

  const DATE_CONVERSIONS: string := "aAwubBcxXDFzZ"
  const TIME_CONVERSIONS: string := "HIMSrRTpQq"

  /** The handlers that durations cannot serve. */
  predicate NeedsDate(a: Action) {
    a.Convert? && a.conversion in DATE_CONVERSIONS
  }

  predicate Accepts(h: Handler, a: Action) {
    h == Checker ==> !NeedsDate(a)
  }

  /** The conversion that starts with the percent sign at `pos`, and the position behind it. */
  function ConversionAt(s: string, pos: nat, end: nat): (r: Option<(Action, nat)>)
    requires pos < end <= |s|
    ensures r.Some? ==> pos + 2 <= r.value.1 <= end
    ensures r.Some? ==> forall i :: pos < i < r.value.1 ==> s[i] != '}'
  {
    if pos + 1 == end then None
    else
      var c := s[pos + 1];
      if c == '%' then Some((Copy("%"), pos + 2))
      else if c == 'n' then Some((Copy("\n"), pos + 2))
      else if c == 't' then Some((Copy("\t"), pos + 2))
      else if c in DATE_CONVERSIONS || c in TIME_CONVERSIONS then Some((Convert(c, false), pos + 2))
      else if pos + 2 == end then None
      else if (c == 'E' && s[pos + 2] in "cxX") || (c == 'O' && s[pos + 2] in "wuHIMS") then
        Some((Convert(s[pos + 2], true), pos + 3))
      else None
  }

  predicate Plain(c: char) {
    c != '%' && c != '}'
  }

  /** Where the run of plain characters from `pos` on ends. */
  function RunEnd(s: string, pos: nat, end: nat): (r: nat)
    requires pos <= end <= |s|
    ensures pos <= r <= end
    ensures forall i :: pos <= i < r ==> Plain(s[i])
    ensures r == end || !Plain(s[r])
    decreases end - pos
  {
    if pos == end || !Plain(s[pos]) then pos else RunEnd(s, pos + 1, end)
  }

  function Prepend(ps: seq<Piece>, o: Outcome): Outcome {
    if o.Done? then Done(o.pos, ps + o.pieces) else o
  }

  /** The pieces of a specification: runs of plain text and conversions, up to the first closing brace. */
  function Scan(h: Handler, s: string, pos: nat, end: nat): Outcome
    requires pos <= end <= |s|
    decreases end - pos
  {
    if pos == end || s[pos] == '}' then Done(pos, [])
    else if s[pos] == '%' then
      var c := ConversionAt(s, pos, end);
      if c.None? || !Accepts(h, c.value.0) then Failed
      else Prepend([Piece(pos, c.value.1, c.value.0)], Scan(h, s, c.value.1, end))
    else
      var r := RunEnd(s, pos, end);
      Prepend([Piece(pos, r, Copy(s[pos..r]))], Scan(h, s, r, end))
  }

  // ---- the loop ----

  /** The switch of `parse_chrono_format`, entered behind the percent sign at `at`. */
  method Switch(h: Handler, s: string, at: nat, end: nat) returns (ok: bool, ptr: nat, action: Action)
    requires at < end <= |s|
    ensures ok <==> ConversionAt(s, at, end).Some? && Accepts(h, ConversionAt(s, at, end).value.0)
    ensures ok ==> ConversionAt(s, at, end).value == (action, ptr)
  {
    ok, ptr, action := false, at + 1, Copy("");
    if ptr == end {
      return;
    }
    var c := s[ptr];
    ptr := ptr + 1;
    if c == '%' {
      action := Copy("%");
    } else if c == 'n' {
      action := Copy("\n");
    } else if c == 't' {
      action := Copy("\t");
    } else if c in DATE_CONVERSIONS || c in TIME_CONVERSIONS {
      action := Convert(c, false);
    } else if c == 'E' || c == 'O' {
      if ptr == end {
        return;
      }
      var d := s[ptr];
      ptr := ptr + 1;
      if !(if c == 'E' then d in "cxX" else d in "wuHIMS") {
        return;
      }
      action := Convert(d, true);
    } else {
      return;
    }
    ok := Accepts(h, action);
  }

  lemma RunContinues(s: string, begin: nat, ptr: nat, end: nat)
    requires begin <= ptr <= end <= |s|
    requires forall i :: begin <= i < ptr ==> Plain(s[i])
    ensures RunEnd(s, begin, end) == RunEnd(s, ptr, end)
    decreases ptr - begin
  {
    if begin < ptr {
      RunContinues(s, begin + 1, ptr, end);
    }
  }

  /** The text pending between `begin` and `ptr` is the next piece of the scan. */
  lemma FlushRun(h: Handler, s: string, begin: nat, ptr: nat, end: nat)
    requires begin < ptr <= end <= |s|
    requires forall i :: begin <= i < ptr ==> Plain(s[i])
    requires ptr == end || !Plain(s[ptr])
    ensures Scan(h, s, begin, end) == Prepend([Piece(begin, ptr, Copy(s[begin..ptr]))], Scan(h, s, ptr, end))
  {
    RunContinues(s, begin, ptr, end);
  }

  lemma PrependTwice(a: seq<Piece>, b: seq<Piece>, o: Outcome)
    ensures Prepend(a, Prepend(b, o)) == Prepend(a + b, o)
  {
    if o.Done? {
      assert a + (b + o.pieces) == (a + b) + o.pieces;
    }
  }

  method ParseChronoFormat(h: Handler, s: string, first: nat, end: nat) returns (r: Outcome)
    requires first <= end <= |s|
    ensures r == Scan(h, s, first, end)
  {
    var begin, ptr := first, first;
    var pieces: seq<Piece> := [];
    while ptr != end
      invariant first <= begin <= ptr <= end
      invariant forall i :: begin <= i < ptr ==> Plain(s[i])
      invariant Scan(h, s, first, end) == Prepend(pieces, Scan(h, s, begin, end))
      decreases end - ptr
    {
      if s[ptr] == '}' {
        break;
      }
      if s[ptr] != '%' {
        ptr := ptr + 1;
        continue;
      }
      if begin != ptr {
        pieces := Flush(h, s, first, begin, ptr, end, pieces);
      }
      var ok, next, action := Switch(h, s, ptr, end);
      if !ok {
        return Failed;
      }
      PrependTwice(pieces, [Piece(ptr, next, action)], Scan(h, s, next, end));
      pieces := pieces + [Piece(ptr, next, action)];
      ptr := next;
      begin := ptr;
    }
    if begin != ptr {
      pieces := Flush(h, s, first, begin, ptr, end, pieces);
    }
    return Done(ptr, pieces);
  }

  /** The call of `on_text` for the text in front of a conversion or at the end. */
  method Flush(ghost h: Handler, s: string, ghost first: nat, begin: nat, ptr: nat, ghost end: nat, pieces: seq<Piece>)
    returns (pieces': seq<Piece>)
    requires first <= begin < ptr <= end <= |s|
    requires (forall i :: begin <= i < ptr ==> Plain(s[i])) && (ptr == end || !Plain(s[ptr]))
    requires Scan(h, s, first, end) == Prepend(pieces, Scan(h, s, begin, end))
    ensures pieces' == pieces + [Piece(begin, ptr, Copy(s[begin..ptr]))]
    ensures Scan(h, s, first, end) == Prepend(pieces', Scan(h, s, ptr, end))
  {
    FlushRun(h, s, begin, ptr, end);
    PrependTwice(pieces, [Piece(begin, ptr, Copy(s[begin..ptr]))], Scan(h, s, ptr, end));
    pieces' := pieces + [Piece(begin, ptr, Copy(s[begin..ptr]))];
  }

  // ---- what a successful parse tells ----

  /** The pieces follow each other without gap or overlap from `lo` to `hi`. */
  ghost predicate Tile(ps: seq<Piece>, lo: nat, hi: nat) {
    if ps == [] then lo == hi
    else ps[0].lo == lo && lo < ps[0].hi <= hi && Tile(ps[1..], ps[0].hi, hi)
  }

  /** On success the parse ends at the first closing brace or at the end of the string, and its pieces
      tile everything before. */
  lemma {:induction false} ScanTiles(h: Handler, s: string, pos: nat, end: nat)
    requires pos <= end <= |s|
    ensures var o := Scan(h, s, pos, end); o.Done? ==>
              && pos <= o.pos <= end
              && (o.pos == end || s[o.pos] == '}')
              && (forall i :: pos <= i < o.pos ==> s[i] != '}')
              && Tile(o.pieces, pos, o.pos)
    decreases end - pos
  {
    if pos != end && s[pos] != '}' {
      if s[pos] == '%' {
        var c := ConversionAt(s, pos, end);
        if c.Some? && Accepts(h, c.value.0) {
          ScanTiles(h, s, c.value.1, end);
          var rest := Scan(h, s, c.value.1, end);
          if rest.Done? { assert ([Piece(pos, c.value.1, c.value.0)] + rest.pieces)[1..] == rest.pieces; }
        }
      } else {
        var r := RunEnd(s, pos, end);
        ScanTiles(h, s, r, end);
        var rest := Scan(h, s, r, end);
        if rest.Done? { assert ([Piece(pos, r, Copy(s[pos..r]))] + rest.pieces)[1..] == rest.pieces; }
      }
    }
  }

  // ---- what the pieces mean ----

  /** The conversions of one letter. */
  predicate IsLetter(c: char) {
    || c == 'a' || c == 'A' || c == 'w' || c == 'u' || c == 'b' || c == 'B' || c == 'H' || c == 'I' || c == 'M' || c == 'S'
    || c == 'c' || c == 'x' || c == 'X' || c == 'D' || c == 'F' || c == 'r' || c == 'R' || c == 'T' || c == 'p' || c == 'Q'
    || c == 'q' || c == 'z' || c == 'Z'
  }

  /** A letter that may stand behind a modifier. */
  predicate IsModified(modifier: char, c: char) {
    || (modifier == 'E' && (c == 'c' || c == 'x' || c == 'X'))
    || (modifier == 'O' && (c == 'w' || c == 'u' || c == 'H' || c == 'I' || c == 'M' || c == 'S'))
  }

  /** What the text of a piece asks for: plain text is copied, `%%`, `%n` and `%t` stand for a percent sign, a newline
      and a tab, and every other piece is a conversion named by its last letter, with or without a modifier. */
  ghost predicate Asks(text: string, a: Action) {
    if text == "" then false
    else if text[0] != '%' then a == Copy(text)
    else if |text| == 2 then
      if text[1] == '%' then a == Copy(['%'])
      else if text[1] == 'n' then a == Copy(['\n'])
      else if text[1] == 't' then a == Copy(['\t'])
      else a == Convert(text[1], false) && IsLetter(text[1])
    else |text| == 3 && a == Convert(text[2], true) && IsModified(text[1], text[2])
  }

  lemma LettersAre(c: char)
    ensures (c in DATE_CONVERSIONS || c in TIME_CONVERSIONS) <==> IsLetter(c)
  {
    var d, t := DATE_CONVERSIONS, TIME_CONVERSIONS;
    assert d == ['a', 'A', 'w', 'u', 'b', 'B', 'c', 'x', 'X', 'D', 'F', 'z', 'Z'];
    assert t == ['H', 'I', 'M', 'S', 'r', 'R', 'T', 'p', 'Q', 'q'];
  }

  lemma ModifiedAre(modifier: char, c: char)
    ensures (modifier == 'E' && c in "cxX") || (modifier == 'O' && c in "wuHIMS") <==> IsModified(modifier, c)
  {
    assert "cxX" == ['c', 'x', 'X'] && "wuHIMS" == ['w', 'u', 'H', 'I', 'M', 'S'];
  }

  /** A percent sign begins a conversion exactly if one of the forms follows. */
  lemma ConversionIff(s: string, pos: nat, end: nat)
    requires pos < end <= |s| && s[pos] == '%'
    ensures var c := ConversionAt(s, pos, end);
            && (c.Some? <==> (pos + 2 <= end && (s[pos + 1] == '%' || s[pos + 1] == 'n' || s[pos + 1] == 't' || IsLetter(s[pos + 1])))
                             || (pos + 3 <= end && IsModified(s[pos + 1], s[pos + 2])))
            && (c.Some? ==> Asks(s[pos..c.value.1], c.value.0))
  {
    if pos + 2 <= end {
      LettersAre(s[pos + 1]);
      assert "%" == ['%'] && "\n" == ['\n'] && "\t" == ['\t'];
    }
    if pos + 3 <= end {
      ModifiedAre(s[pos + 1], s[pos + 2]);
    }
  }

  /** Every piece of a successful parse is what its text asks for. */
  lemma {:induction false} PiecesMean(h: Handler, s: string, pos: nat, end: nat)
    requires pos <= end <= |s|
    ensures var o := Scan(h, s, pos, end); o.Done? ==>
              forall p :: p in o.pieces ==> p.lo <= p.hi <= end && Asks(s[p.lo..p.hi], p.action)
    decreases end - pos
  {
    if pos != end && s[pos] != '}' {
      if s[pos] == '%' {
        ConversionIff(s, pos, end);
        var c := ConversionAt(s, pos, end);
        if c.Some? {
          PiecesMean(h, s, c.value.1, end);
        }
      } else {
        PiecesMean(h, s, RunEnd(s, pos, end), end);
      }
    }
  }

  /** The checker refuses the conversions that need a date or a time zone: everything but hours, minutes and seconds,
      the clock formats made of them, the day half, the count and its unit. */
  lemma DatesAreRefused(c: char, alternative: bool)
    requires IsLetter(c)
    ensures Accepts(Formatter, Convert(c, alternative))
    ensures Accepts(Checker, Convert(c, alternative))
            <==> c == 'H' || c == 'I' || c == 'M' || c == 'S' || c == 'r' || c == 'R' || c == 'T' || c == 'p' || c == 'Q' || c == 'q'
  {
    assert DATE_CONVERSIONS == ['a', 'A', 'w', 'u', 'b', 'B', 'c', 'x', 'X', 'D', 'F', 'z', 'Z'];
  }

  /** A parse of the accepted range alone gives the same pieces. */
  lemma {:induction false} ScanOfOwnRange(h: Handler, s: string, pos: nat, end: nat)
    requires pos <= end <= |s|
    ensures var o := Scan(h, s, pos, end); o.Done? ==> pos <= o.pos <= end && Scan(h, s, pos, o.pos) == o
    decreases end - pos
  {
    var o := Scan(h, s, pos, end);
    ScanTiles(h, s, pos, end);
    if o.Done? && pos != end && s[pos] != '}' {
      var next := if s[pos] == '%' then ConversionAt(s, pos, end).value.1 else RunEnd(s, pos, end);
      ScanOfOwnRange(h, s, next, end);
      if s[pos] != '%' {
        RunContinues(s, pos, next, o.pos);
      }
    }
  }

  lemma {:induction false} CheckedIsFormatted(s: string, pos: nat, end: nat)
    requires pos <= end <= |s|
    ensures var o := Scan(Checker, s, pos, end); o.Done? ==>
              Scan(Formatter, s, pos, end) == o && forall p :: p in o.pieces ==> !NeedsDate(p.action)
    decreases end - pos
  {
    if Scan(Checker, s, pos, end).Done? && pos != end && s[pos] != '}' {
      CheckedIsFormatted(s, if s[pos] == '%' then ConversionAt(s, pos, end).value.1 else RunEnd(s, pos, end), end);
    }
  }

  /** A range that the checker accepts: the formatter, which gets exactly that range, sees the same
      pieces, never meets a parse error and is never asked for a date. */
  lemma CheckedRangeFormats(s: string, pos: nat, end: nat)
    requires pos <= end <= |s|
    ensures var o := Scan(Checker, s, pos, end); o.Done? ==>
              && pos <= o.pos <= end
              && Scan(Formatter, s, pos, o.pos) == o
              && (forall p :: p in o.pieces ==> !NeedsDate(p.action))
  {
    var o := Scan(Checker, s, pos, end);
    ScanOfOwnRange(Checker, s, pos, end);
    if o.Done? {
      CheckedIsFormatted(s, pos, o.pos);
    }
  }

  /** The checker refuses exactly what the formatter would refuse or be asked a date for. */
  lemma {:induction false} CheckerRefusesIff(s: string, pos: nat, end: nat)
    requires pos <= end <= |s|
    ensures Scan(Checker, s, pos, end).Failed?
            <==> var o := Scan(Formatter, s, pos, end); o.Failed? || exists p :: p in o.pieces && NeedsDate(p.action)
    decreases end - pos
  {
    if pos != end && s[pos] != '}' {
      if s[pos] == '%' {
        var c := ConversionAt(s, pos, end);
        if c.Some? {
          CheckerRefusesIff(s, c.value.1, end);
          FirstOrRest(Piece(pos, c.value.1, c.value.0), Scan(Formatter, s, c.value.1, end));
        }
      } else {
        var r := RunEnd(s, pos, end);
        CheckerRefusesIff(s, r, end);
        FirstOrRest(Piece(pos, r, Copy(s[pos..r])), Scan(Formatter, s, r, end));
      }
    }
  }

  lemma FirstOrRest(p: Piece, o: Outcome)
    ensures o.Done? ==>
              ((exists q :: q in Prepend([p], o).pieces && NeedsDate(q.action))
               <==> NeedsDate(p.action) || exists q :: q in o.pieces && NeedsDate(q.action))
  {
    if o.Done? {
      var all := Prepend([p], o).pieces;
      assert all[0] == p && forall q :: q in all <==> q == p || q in o.pieces;
    }
  }
}
