/** fmt's compile-time translation of a format string into a tree of formatters
    (src/3rdparty/fmt/compile.h), compared with a left-to-right reading of the string. */
module FormatCompile {

  /** What `parse_specs` finds after `{:`: how far the specification goes, the next automatic argument
      id, and the formatter it sets up. `Bad` is a specification that its formatter refuses. */
  datatype Parsed<S> = Bad | Good(length: nat, next: nat, spec: S)

  /** The parsers of the argument types: the rest of the string and the id of the argument. */
  type SpecParser<!S> = (string, nat) -> Parsed<S>

  /** How the arguments print, with and without a specification. */
  datatype Values<!S> = Values(plain: nat -> string, formatted: (nat, S) -> string)

  datatype Tree<S> =
    | Text(data: string)
    | CodeUnit(value: char)
    | Field(arg: nat)
    | SpecField(arg: nat, spec: S)
    | Concat(lhs: Tree<S>, rhs: Tree<S>)

  /** `Unknown` is `unknown_format`; `Invalid` a string that does not compile. */
  datatype Compiled<S> = Compiled(tree: Tree<S>) | Unknown | Invalid

  /** The `format` functions of the tree nodes. */
  function Format<S>(t: Tree<S>, vals: Values<S>): string {
    match t
    case Text(data) => data
    case CodeUnit(c) => [c]
    case Field(n) => vals.plain(n)
    case SpecField(n, spec) => vals.formatted(n, spec)
    case Concat(l, r) => Format(l, vals) + Format(r, vals)
  }

  predicate IsBrace(c: char) {
    c == '{' || c == '}'
  }

  /** Where the run of plain text that includes `pos` ends. */
  function TextEnd(str: string, pos: nat): (end: nat)
    requires pos <= |str|
    ensures pos <= end <= |str|
    ensures forall i :: pos <= i < end ==> !IsBrace(str[i])
    ensures end == |str| || IsBrace(str[end])
    decreases |str| - pos
  {
    if pos == |str| || IsBrace(str[pos]) then pos else TextEnd(str, pos + 1)
  }

  /** `parse_text`. */
  method ParseText(str: string, start: nat) returns (pos: nat)
    requires start <= |str|
    ensures pos == TextEnd(str, start)
  {
    pos := start;
    var size := |str|;
    while pos != size
      invariant start <= pos <= size
      invariant TextEnd(str, start) == TextEnd(str, pos)
    {
      if str[pos] == '{' || str[pos] == '}' {
        break;
      }
      pos := pos + 1;
    }
  }

  /** `parse_tail`: the rest of the string behind a node. */
  function ParseTail<S>(specs: SpecParser<S>, args: nat, head: Tree<S>, str: string, pos: nat, id: nat): Compiled<S>
    decreases |str| - pos, 1
  {
    if pos == |str| then Compiled(head)
    else if pos > |str| then Invalid
    else
      match CompileAt(specs, args, str, pos, id)
      case Compiled(tail) => Compiled(Concat(head, tail))
      case Unknown => Unknown
      case Invalid => Invalid
  }

  /** `compile_format_string` at position `pos` with automatic argument id `id`; the position is the
      termination measure. */
  function CompileAt<S>(specs: SpecParser<S>, args: nat, str: string, pos: nat, id: nat): Compiled<S>
    requires pos < |str|
    decreases |str| - pos, 0
  {
    if str[pos] == '{' then
      if pos + 1 == |str| then Invalid
      else if str[pos + 1] == '{' then ParseTail(specs, args, Text([str[pos]]), str, pos + 2, id)
      else if str[pos + 1] == '}' then
        if id < args then ParseTail(specs, args, Field(id), str, pos + 2, id + 1) else Invalid
      else if str[pos + 1] == ':' then
        if id >= args then Invalid
        else
          match specs(str[pos + 2..], id)
          case Bad => Invalid
          case Good(length, next, spec) =>
            ParseTail(specs, args, SpecField(id, spec), str, pos + 2 + length + 1, next)
      else Unknown
    else if str[pos] == '}' then
      if pos + 1 == |str| then Invalid
      else ParseTail(specs, args, Text([str[pos]]), str, pos + 2, id)
    else
      var end := TextEnd(str, pos + 1);
      if end - pos > 1 then ParseTail(specs, args, Text(str[pos..end]), str, end, id)
      else ParseTail(specs, args, CodeUnit(str[pos]), str, end, id)
  }

  /** `compile`: `Unknown` stands for the fallback to the runtime formatter. */
  function Compile<S>(specs: SpecParser<S>, args: nat, str: string): Compiled<S> {
    if |str| == 0 then Compiled(Text("")) else CompileAt(specs, args, str, 0, 0)
  }

  // ---- the meaning of a format string, read one character at a time ----

  datatype Reading = Printed(out: string) | OtherField | Malformed

  function Prepend(s: string, r: Reading): Reading {
    if r.Printed? then Printed(s + r.out) else r
  }

  function Read<S>(specs: SpecParser<S>, vals: Values<S>, args: nat, str: string, pos: nat, id: nat): Reading
    decreases |str| - pos
  {
    if pos > |str| then Malformed
    else if pos == |str| then Printed("")
    else if str[pos] == '{' then
      if pos + 1 == |str| then Malformed
      else if str[pos + 1] == '{' then Prepend("{", Read(specs, vals, args, str, pos + 2, id))
      else if str[pos + 1] == '}' then
        if id < args then Prepend(vals.plain(id), Read(specs, vals, args, str, pos + 2, id + 1)) else Malformed
      else if str[pos + 1] == ':' then
        if id >= args then Malformed
        else
          match specs(str[pos + 2..], id)
          case Bad => Malformed
          case Good(length, next, spec) =>
            Prepend(vals.formatted(id, spec), Read(specs, vals, args, str, pos + 2 + length + 1, next))
      else OtherField
    else if str[pos] == '}' then
      if pos + 1 < |str| && str[pos + 1] == '}' then Prepend("}", Read(specs, vals, args, str, pos + 2, id)) else Malformed
    else Prepend([str[pos]], Read(specs, vals, args, str, pos + 1, id))
  }

  /** The reading meets a closing brace that is followed by some other character. */
  predicate MeetsStrayBrace<S>(specs: SpecParser<S>, args: nat, str: string, pos: nat, id: nat)
    decreases |str| - pos
  {
    if pos + 1 >= |str| then false
    else if str[pos] == '{' then
      if str[pos + 1] == '{' then MeetsStrayBrace(specs, args, str, pos + 2, id)
      else if id >= args then false
      else if str[pos + 1] == '}' then MeetsStrayBrace(specs, args, str, pos + 2, id + 1)
      else if str[pos + 1] == ':' then
        match specs(str[pos + 2..], id)
        case Bad => false
        case Good(length, next, _) => MeetsStrayBrace(specs, args, str, pos + 2 + length + 1, next)
      else false
    else if str[pos] == '}' then str[pos + 1] != '}' || MeetsStrayBrace(specs, args, str, pos + 2, id)
    else MeetsStrayBrace(specs, args, str, pos + 1, id)
  }

  /** A run of plain text is read as it stands. */
  lemma {:induction false} ReadRun<S>(specs: SpecParser<S>, vals: Values<S>, args: nat, str: string, pos: nat, end: nat, id: nat)
    requires pos <= end <= |str| && forall i :: pos <= i < end ==> !IsBrace(str[i])
    ensures Read(specs, vals, args, str, pos, id) == Prepend(str[pos..end], Read(specs, vals, args, str, end, id))
    ensures MeetsStrayBrace(specs, args, str, pos, id) == MeetsStrayBrace(specs, args, str, end, id)
    decreases end - pos
  {
    if pos < end {
      ReadRun(specs, vals, args, str, pos + 1, end, id);
      assert str[pos..end] == [str[pos]] + str[pos + 1..end];
    }
  }

  /** A compilation says what a reading says. */
  ghost predicate Agree<S>(c: Compiled<S>, vals: Values<S>, r: Reading) {
    match c
    case Compiled(tree) => r == Printed(Format(tree, vals))
    case Unknown => r == OtherField
    case Invalid => r == Malformed
  }

  lemma {:induction false} TailAgrees<S>(specs: SpecParser<S>, vals: Values<S>, args: nat, head: Tree<S>, str: string, pos: nat, id: nat)
    ensures if MeetsStrayBrace(specs, args, str, pos, id) then Read(specs, vals, args, str, pos, id).Malformed?
            else Agree(ParseTail(specs, args, head, str, pos, id), vals,
                       Prepend(Format(head, vals), Read(specs, vals, args, str, pos, id)))
    decreases |str| - pos, 1
  {
    if pos < |str| {
      CompileAgrees(specs, vals, args, str, pos, id);
    }
  }

  lemma {:induction false} CompileAgrees<S>(specs: SpecParser<S>, vals: Values<S>, args: nat, str: string, pos: nat, id: nat)
    requires pos < |str|
    ensures if MeetsStrayBrace(specs, args, str, pos, id) then Read(specs, vals, args, str, pos, id).Malformed?
            else Agree(CompileAt(specs, args, str, pos, id), vals, Read(specs, vals, args, str, pos, id))
    decreases |str| - pos, 0
  {
    if str[pos] == '{' {
      if pos + 1 < |str| {
        if str[pos + 1] == '{' {
          TailAgrees(specs, vals, args, Text("{"), str, pos + 2, id);
        } else if str[pos + 1] == '}' {
          if id < args { TailAgrees(specs, vals, args, Field(id), str, pos + 2, id + 1); }
        } else if str[pos + 1] == ':' && id < args {
          match specs(str[pos + 2..], id)
          case Bad =>
          case Good(length, next, spec) =>
            TailAgrees(specs, vals, args, SpecField(id, spec), str, pos + 2 + length + 1, next);
        }
      }
    } else if str[pos] == '}' {
      if pos + 1 < |str| { TailAgrees(specs, vals, args, Text("}"), str, pos + 2, id); }
    } else {
      var end := TextEnd(str, pos + 1);
      ReadRun(specs, vals, args, str, pos, end, id);
      var head: Tree<S> := if end - pos > 1 then Text(str[pos..end]) else CodeUnit(str[pos]);
      assert Format(head, vals) == str[pos..end];
      TailAgrees(specs, vals, args, head, str, end, id);
    }
  }

  /** For every format string, argument count and argument values: unless the reading meets a stray
      closing brace, the compiled tree prints what the string says, the fallback is taken exactly for
      a field form the translation does not know, and only malformed strings fail to compile. */
  lemma CompiledMeansTheSame<S>(specs: SpecParser<S>, vals: Values<S>, args: nat, str: string)
    requires !MeetsStrayBrace(specs, args, str, 0, 0)
    ensures Agree(Compile(specs, args, str), vals, Read(specs, vals, args, str, 0, 0))
  {
    if |str| > 0 {
      CompileAgrees(specs, vals, args, str, 0, 0);
    }
  }

  /** A tree that was compiled prints the reading of its string exactly when there was no such brace. */
  lemma TreeIsRightIff<S>(specs: SpecParser<S>, vals: Values<S>, args: nat, str: string)
    requires Compile(specs, args, str).Compiled?
    ensures Read(specs, vals, args, str, 0, 0) == Printed(Format(Compile(specs, args, str).tree, vals))
            <==> !MeetsStrayBrace(specs, args, str, 0, 0)
  {
    if |str| > 0 {
      CompileAgrees(specs, vals, args, str, 0, 0);
    }
  }

  /** The translation accepts a stray brace and swallows the character behind it. */
  lemma StrayBraceSwallows<S>(specs: SpecParser<S>, vals: Values<S>, c: char)
    requires c != '}'
    ensures Compile(specs, 0, ['}', c]) == Compiled(Text("}"))
    ensures Read(specs, vals, 0, ['}', c], 0, 0) == Malformed
  {
    var str := ['}', c];
    assert ParseTail(specs, 0, Text([str[0]]), str, 2, 0) == Compiled(Text("}"));
  }

  /** Text with its braces doubled. */
  function Escape(s: string): string {
    if s == "" then "" else (if IsBrace(s[0]) then [s[0], s[0]] else [s[0]]) + Escape(s[1..])
  }

  lemma {:induction false} EscapedReads<S>(specs: SpecParser<S>, vals: Values<S>, args: nat, before: string, s: string, id: nat)
    ensures Read(specs, vals, args, before + Escape(s), |before|, id) == Printed(s)
    ensures !MeetsStrayBrace(specs, args, before + Escape(s), |before|, id)
    decreases s
  {
    if s != "" {
      var head := if IsBrace(s[0]) then [s[0], s[0]] else [s[0]];
      assert before + Escape(s) == (before + head) + Escape(s[1..]);
      EscapedReads(specs, vals, args, before + head, s[1..], id);
      assert [s[0]] + s[1..] == s;
    }
  }

  /** Any text at all survives: escaped, compiled and formatted, it prints itself. */
  lemma EscapedTextPrintsItself<S>(specs: SpecParser<S>, vals: Values<S>, args: nat, s: string)
    ensures var c := Compile(specs, args, Escape(s)); c.Compiled? && Format(c.tree, vals) == s
  {
    EscapedReads(specs, vals, args, "", s, 0);
    assert "" + Escape(s) == Escape(s);
    CompiledMeansTheSame(specs, vals, args, Escape(s));
  }

  /** A field for each of `n` arguments. */
  function Fields(n: nat): string {
    if n == 0 then "" else "{}" + Fields(n - 1)
  }

  /** The arguments from number `id` on, `n` of them, printed one after the other. */
  function PlainFrom<S>(vals: Values<S>, id: nat, n: nat): string
    decreases n
  {
    if n == 0 then "" else vals.plain(id) + PlainFrom(vals, id + 1, n - 1)
  }

  lemma {:induction false} FieldsRead<S>(specs: SpecParser<S>, vals: Values<S>, args: nat, before: string, n: nat, id: nat)
    ensures Read(specs, vals, args, before + Fields(n), |before|, id)
            == if id + n <= args || n == 0 then Printed(PlainFrom(vals, id, n)) else Malformed
    ensures !MeetsStrayBrace(specs, args, before + Fields(n), |before|, id)
    decreases n
  {
    if n > 0 {
      var str := before + Fields(n);
      assert str == (before + "{}") + Fields(n - 1);
      assert str[|before|] == '{' && str[|before| + 1] == '}';
      FieldsRead(specs, vals, args, before + "{}", n - 1, id + 1);
    }
  }

  /** The fields take the arguments in order, from the first on; a field too many does not compile. */
  lemma FieldsPrintArguments<S>(specs: SpecParser<S>, vals: Values<S>, args: nat, n: nat)
    ensures var c := Compile(specs, args, Fields(n));
            if n <= args then c.Compiled? && Format(c.tree, vals) == PlainFrom(vals, 0, n) else c == Invalid
  {
    FieldsRead(specs, vals, args, "", n, 0);
    assert "" + Fields(n) == Fields(n);
    CompiledMeansTheSame(specs, vals, args, Fields(n));
  }

  /** A field with a specification prints its argument formatted by it. */
  lemma SpecFieldPrints<S>(specs: SpecParser<S>, vals: Values<S>, args: nat, body: string, next: nat, spec: S)
    requires args > 0 && specs(body + "}", 0) == Good(|body|, next, spec)
    ensures var c := Compile(specs, args, "{:" + body + "}"); c.Compiled? && Format(c.tree, vals) == vals.formatted(0, spec)
  {
    var str := "{:" + body + "}";
    assert str[0] == '{' && str[1] == ':' && str[2..] == body + "}" && 2 + |body| + 1 == |str|;
    assert ParseTail(specs, args, SpecField(0, spec), str, |str|, next) == Compiled(SpecField(0, spec));
  }

  /** A field of any other form sends the whole string to the runtime formatter, and a brace alone at the end does not
      compile, whatever escaped text stands in front. */
  lemma OtherFieldsFallBack<S>(specs: SpecParser<S>, args: nat, before: string, c: char, rest: string)
    requires c != '{' && c != '}' && c != ':'
    ensures Compile(specs, args, Escape(before) + ['{', c] + rest) == Unknown
    ensures Compile(specs, args, Escape(before) + "{") == Invalid && Compile(specs, args, Escape(before) + "}") == Invalid
  {
    var vals: Values<S> := Values(_ => "", (_, _) => "");
    EscapedThen(specs, vals, args, "", before, ['{', c] + rest, 0);
    EscapedThen(specs, vals, args, "", before, "{", 0);
    EscapedThen(specs, vals, args, "", before, "}", 0);
    var field := Escape(before) + ['{', c] + rest;
    assert "" + Escape(before) + (['{', c] + rest) == field && "" + Escape(before) + "{" == Escape(before) + "{";
    assert "" + Escape(before) + "}" == Escape(before) + "}";
    var n := |Escape(before)|;
    assert field[n] == '{' && field[n + 1] == c;
    CompiledMeansTheSame(specs, vals, args, field);
    CompiledMeansTheSame(specs, vals, args, Escape(before) + "{");
    CompiledMeansTheSame(specs, vals, args, Escape(before) + "}");
  }

  /** Escaped text is read as itself, and the reading goes on behind it. */
  lemma {:induction false} EscapedThen<S>(specs: SpecParser<S>, vals: Values<S>, args: nat, before: string, s: string, rest: string, id: nat)
    ensures var str := before + Escape(s) + rest;
            && Read(specs, vals, args, str, |before|, id) == Prepend(s, Read(specs, vals, args, str, |before + Escape(s)|, id))
            && MeetsStrayBrace(specs, args, str, |before|, id) == MeetsStrayBrace(specs, args, str, |before + Escape(s)|, id)
    decreases s
  {
    var str := before + Escape(s) + rest;
    if s == "" {
      assert before + Escape(s) == before;
    } else {
      var head := if IsBrace(s[0]) then [s[0], s[0]] else [s[0]];
      assert before + Escape(s) == (before + head) + Escape(s[1..]);
      assert str == (before + head) + Escape(s[1..]) + rest;
      OneEscaped(specs, vals, args, str, |before|, s[0], id);
      EscapedThen(specs, vals, args, before + head, s[1..], rest, id);
      PrependOne(s, Read(specs, vals, args, str, |before + Escape(s)|, id));
    }
  }

  lemma OneEscaped<S>(specs: SpecParser<S>, vals: Values<S>, args: nat, str: string, pos: nat, c: char, id: nat)
    requires pos < |str| && str[pos] == c && (IsBrace(c) ==> pos + 1 < |str| && str[pos + 1] == c)
    ensures var next := if IsBrace(c) then pos + 2 else pos + 1;
            && Read(specs, vals, args, str, pos, id) == Prepend([c], Read(specs, vals, args, str, next, id))
            && MeetsStrayBrace(specs, args, str, pos, id) == MeetsStrayBrace(specs, args, str, next, id)
  {
  }

  lemma PrependOne(s: string, r: Reading)
    requires s != ""
    ensures Prepend([s[0]], Prepend(s[1..], r)) == Prepend(s, r)
  {
    if r.Printed? {
      assert [s[0]] + (s[1..] + r.out) == s + r.out;
    }
  }
}
