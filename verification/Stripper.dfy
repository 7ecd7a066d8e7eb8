/** Blanking comments and strings of TypeScript text (compiler/override-facts.go). Characters
    stand for bytes. */
module Stripper {

  datatype Mode = Code | LineComment | BlockComment | SingleString | DoubleString | TemplateString

  function QuoteOf(mode: Mode): char
  {
    match mode
    case DoubleString => '\"'
    case TemplateString => '`'
    case _ => '\''
  }

  /** A two-character opener or closer stands at i. */
  predicate Pair(data: string, i: nat, a: char, b: char)
  {
    i + 1 < |data| && data[i] == a && data[i + 1] == b
  }

  /** How many characters the turn at i consumes, what it writes, and how it goes on. */
  datatype Turn = Turn(out: string, mode: Mode, escaped: bool)

  function TurnAt(data: string, i: nat, mode: Mode, escaped: bool): (t: Turn)
    requires i < |data|
    ensures 1 <= |t.out| <= 2 && i + |t.out| <= |data|
  {
    var ch := data[i];
    match mode
    case Code =>
      if Pair(data, i, '/', '/') then Turn("  ", LineComment, escaped)
      else if Pair(data, i, '/', '*') then Turn("  ", BlockComment, escaped)
      else if ch == '\'' then Turn(" ", SingleString, escaped)
      else if ch == '\"' then Turn(" ", DoubleString, escaped)
      else if ch == '`' then Turn(" ", TemplateString, escaped)
      else Turn([ch], Code, escaped)
    case LineComment =>
      if ch == '\n' then Turn([ch], Code, escaped) else Turn(" ", LineComment, escaped)
    case BlockComment =>
      if Pair(data, i, '*', '/') then Turn("  ", Code, escaped)
      else if ch == '\n' then Turn([ch], BlockComment, escaped)
      else Turn(" ", BlockComment, escaped)
    case _ =>
      if ch == '\n' then Turn([ch], if mode == TemplateString then mode else Code, false)
      else if escaped then Turn(" ", mode, false)
      else if ch == '\\' then Turn(" ", mode, true)
      else if ch == QuoteOf(mode) then Turn(" ", Code, false)
      else Turn(" ", mode, false)
  }

  /** The text from i on. */
  function StripFrom(data: string, i: nat, mode: Mode, escaped: bool): string
    decreases |data| - i
  {
    if i >= |data| then ""
    else
      var t := TurnAt(data, i, mode, escaped);
      t.out + StripFrom(data, i + |t.out|, t.mode, t.escaped)
  }

  function Strip(data: string): string
  {
    StripFrom(data, 0, Code, false)
  }

  /** The body of the loop: what is written for the byte at i, and the next state. */
  method OneTurn(data: string, i: nat, mode0: Mode, escaped0: bool) returns (out: string, mode: Mode, escaped: bool)
    requires i < |data|
    ensures Turn(out, mode, escaped) == TurnAt(data, i, mode0, escaped0)
  {
    mode, escaped := mode0, escaped0;
    var ch := data[i];
    match mode0 {
      case Code =>
        if Pair(data, i, '/', '/') {
          out, mode := "  ", LineComment;
        } else if Pair(data, i, '/', '*') {
          out, mode := "  ", BlockComment;
        } else if ch == '\'' {
          out, mode := " ", SingleString;
        } else if ch == '\"' {
          out, mode := " ", DoubleString;
        } else if ch == '`' {
          out, mode := " ", TemplateString;
        } else {
          out := [ch];
        }
      case LineComment =>
        out := " ";
        if ch == '\n' { out, mode := [ch], Code; }
      case BlockComment =>
        out := " ";
        if Pair(data, i, '*', '/') {
          out, mode := "  ", Code;
        } else if ch == '\n' {
          out := [ch];
        }
      case _ =>
        var quote := if mode0 == DoubleString then '\"' else if mode0 == TemplateString then '`' else '\'';
        out := " ";
        if ch == '\n' {
          out, escaped := [ch], false;
          if mode0 != TemplateString { mode := Code; }
        } else if escaped {
          escaped := false;
        } else if ch == '\\' {
          escaped := true;
        } else if ch == quote {
          mode := Code;
        }
    }
  }

  /** The loop over the bytes. */
  method StripTypeScriptCommentsAndStrings(data: string) returns (body: string)
    ensures body == Strip(data)
  {
    hide TurnAt, StripFrom;
    StripAll(data);
    var i, mode, escaped := 0, Code, false;
    body := "";
    while i < |data|
      invariant i <= |data|
      invariant Strip(data) == body + StripFrom(data, i, mode, escaped)
    {
      StripOne(data, i, mode, escaped);
      ghost var before := body;
      var out;
      out, mode, escaped := OneTurn(data, i, mode, escaped);
      body, i := body + out, i + |out|;
      assert body + StripFrom(data, i, mode, escaped) == before + (out + StripFrom(data, i, mode, escaped));
    }
    assert body + "" == body;
  }

  lemma {:induction false} StripOne(data: string, i: nat, mode: Mode, escaped: bool)
    requires i < |data|
    ensures var t := TurnAt(data, i, mode, escaped);
      StripFrom(data, i, mode, escaped) == t.out + StripFrom(data, i + |t.out|, t.mode, t.escaped)
  {
    hide TurnAt;
  }

  lemma {:induction false} StripAll(data: string)
    ensures Strip(data) == "" + StripFrom(data, 0, Code, false)
    ensures forall mode, escaped :: StripFrom(data, |data|, mode, escaped) == ""
  {
  }

  // ----- what every output is like -----

  /** From i on: as long as the input, newlines in place, and nothing but the input's own
      characters and spaces. */
  lemma {:induction false} StripFromShape(data: string, i: nat, mode: Mode, escaped: bool)
    requires i <= |data|
    ensures var out := StripFrom(data, i, mode, escaped);
      |out| == |data| - i &&
      forall k :: 0 <= k < |out| ==>
        (out[k] == data[i + k] || out[k] == ' ') && (data[i + k] == '\n' ==> out[k] == '\n')
    decreases |data| - i
  {
    if i < |data| {
      var t := TurnAt(data, i, mode, escaped);
      StripFromShape(data, i + |t.out|, t.mode, t.escaped);
    }
  }

  predicate Opens(out: string, k: nat)
    requires k < |out|
  {
    out[k] == '\'' || out[k] == '\"' || out[k] == '`' || Pair(out, k, '/', '/') || Pair(out, k, '/', '*')
  }

  lemma {:induction false} TurnClean(data: string, i: nat, mode: Mode, escaped: bool)
    requires i < |data|
    ensures var out := TurnAt(data, i, mode, escaped).out;
      out == "  " || (|out| == 1 && out[0] != '\'' && out[0] != '\"' && out[0] != '`' &&
                      (out[0] == '/' ==> !Pair(data, i, '/', '/') && !Pair(data, i, '/', '*')))
  {
  }

  /** No quote and no comment opener is left. */
  lemma {:induction false} StripFromClean(data: string, i: nat, mode: Mode, escaped: bool)
    requires i <= |data|
    ensures var out := StripFrom(data, i, mode, escaped); forall k :: 0 <= k < |out| ==> !Opens(out, k)
    decreases |data| - i
  {
    hide TurnAt;
    if i < |data| {
      var t := TurnAt(data, i, mode, escaped);
      var next := i + |t.out|;
      var rest := StripFrom(data, next, t.mode, t.escaped);
      TurnClean(data, i, mode, escaped);
      StripFromClean(data, next, t.mode, t.escaped);
      StripFromShape(data, i, mode, escaped);
      StripFromShape(data, next, t.mode, t.escaped);
      assert StripFrom(data, i, mode, escaped)[0] == t.out[0];
      Prepend(t.out, rest, data, i);
    }
  }

  lemma {:induction false} Prepend(a: string, rest: string, data: string, i: nat)
    requires i < |data| && |a| + |rest| == |data| - i
    requires a == "  " ||
      (|a| == 1 && a[0] != '\'' && a[0] != '\"' && a[0] != '`' &&
       (a[0] == '/' ==> !Pair(data, i, '/', '/') && !Pair(data, i, '/', '*')))
    requires |a| == 1 && rest != [] ==> (a[0] == ' ' || a[0] == data[i]) && (rest[0] == ' ' || rest[0] == data[i + 1])
    requires forall k :: 0 <= k < |rest| ==> !Opens(rest, k)
    ensures forall k :: 0 <= k < |a + rest| ==> !Opens(a + rest, k)
  {
    forall k | 0 <= k < |a + rest| ensures !Opens(a + rest, k) {
      if k >= |a| { assert !Opens(rest, k - |a|); }
    }
  }

  lemma {:induction false} CleanIsKept(data: string, i: nat)
    requires i <= |data| && forall k :: 0 <= k < |data| ==> !Opens(data, k)
    ensures StripFrom(data, i, Code, false) == data[i..]
    decreases |data| - i
  {
    if i < |data| {
      assert !Opens(data, i) && TurnAt(data, i, Code, false) == Turn([data[i]], Code, false);
      CleanIsKept(data, i + 1);
      assert data[i..] == [data[i]] + data[i + 1..];
    }
  }

  /** Same length, newlines in place, no new characters, no quotes or comments, and a second pass
      changes nothing. */
  lemma {:induction false} StripProperties(data: string)
    ensures var out := Strip(data);
      && |out| == |data|
      && (forall k :: 0 <= k < |out| ==> (out[k] == data[k] || out[k] == ' ') && (data[k] == '\n' ==> out[k] == '\n'))
      && (forall k :: 0 <= k < |out| ==> !Opens(out, k))
      && Strip(out) == out
  {
    StripFromShape(data, 0, Code, false);
    StripFromClean(data, 0, Code, false);
    CleanIsKept(Strip(data), 0);
    assert Strip(data)[0..] == Strip(data);
  }

  // ----- what is kept and what is blanked -----

  /** A part of the text up to `end`: a character of code, a comment, or a string. */
  datatype Part = Plain(end: nat) | Line(end: nat) | Block(end: nat) | Quoted(end: nat)

  /** The character at k stands behind an odd number of backslashes that begin at `from` or later. */
  predicate Escaped(data: string, from: nat, k: nat)
    requires k <= |data|
    decreases k
  {
    from < k && data[k - 1] == '\\' && !Escaped(data, from, k - 1)
  }

  /** The quote at k ends the string that the quote at i begins. */
  predicate Closes(data: string, i: nat, k: nat)
    requires i < |data| && k < |data|
  {
    i < k && data[k] == data[i] && !Escaped(data, i + 1, k)
  }

  predicate OneLine(data: string, i: nat, end: nat)
    requires i <= end <= |data|
  {
    forall k :: i <= k < end ==> data[k] != '\n'
  }

  predicate EndsLine(data: string, end: nat)
    requires end <= |data|
  {
    end == |data| || data[end] == '\n'
  }

  /** The part that begins at i: a line comment goes up to the end of the line, a block comment up
      to the first closer, a string up to the first quote that is not escaped or, unless it is a
      template, up to the end of the line. Without a closer the rest of the text belongs to it. */
  predicate Is(data: string, i: nat, p: Part)
  {
    i < p.end <= |data| &&
    match p
    case Plain(end) => end == i + 1 && !Opens(data, i)
    case Line(end) => Pair(data, i, '/', '/') && OneLine(data, i, end) && EndsLine(data, end)
    case Block(end) =>
      Pair(data, i, '/', '*') && i + 2 <= end && (forall k :: i + 2 <= k < end - 2 ==> !Pair(data, k, '*', '/')) &&
      ((i + 4 <= end && Pair(data, end - 2, '*', '/')) ||
       (end == |data| && (i + 4 <= end ==> !Pair(data, end - 2, '*', '/'))))
    case Quoted(end) =>
      data[i] in {'\'', '\"', '`'} && (forall k :: i < k < end - 1 ==> !Closes(data, i, k)) &&
      (data[i] != '`' ==> OneLine(data, i, end)) &&
      (Closes(data, i, end - 1) || end == |data| || (data[i] != '`' && data[end] == '\n'))
  }

  /** Parts one behind the other, from i to the end. */
  predicate Divides(data: string, i: nat, parts: seq<Part>)
    decreases |parts|
  {
    if parts == [] then i == |data| else Is(data, i, parts[0]) && Divides(data, parts[0].end, parts[1..])
  }

  function Blank(s: string): (r: string)
    ensures |r| == |s|
  {
    seq(|s|, k requires 0 <= k < |s| => if s[k] == '\n' then '\n' else ' ')
  }

  /** Code as it is, comments and strings blanked up to their newlines. */
  function Render(data: string, i: nat, parts: seq<Part>): string
    requires Divides(data, i, parts)
    decreases |parts|
  {
    if parts == [] then ""
    else
      var text := data[i..parts[0].end];
      (if parts[0].Plain? then text else Blank(text)) + Render(data, parts[0].end, parts[1..])
  }

  lemma {:induction false} BlankMore(data: string, i: nat, j: nat, end: nat, a: string, rest: string)
    requires i < j <= end <= |data| && a == Blank(data[i..j])
    ensures a + (Blank(data[j..end]) + rest) == Blank(data[i..end]) + rest
  {
    assert data[i..end] == data[i..j] + data[j..end];
    assert Blank(data[i..end]) == a + Blank(data[j..end]);
  }

  /** Behind the last character of a comment or string that a newline ends. */
  lemma {:induction false} LineEnds(data: string, end: nat, mode: Mode, escaped: bool)
    requires end <= |data| && EndsLine(data, end)
    requires (mode == LineComment || mode == SingleString || mode == DoubleString) && (mode == LineComment ==> !escaped)
    ensures StripFrom(data, end, mode, escaped) == Blank(data[end..end]) + StripFrom(data, end, Code, false)
  {
    assert Blank(data[end..end]) == "";
  }

  lemma {:induction false} LineFrom(data: string, j: nat, end: nat)
    requires j <= end <= |data| && OneLine(data, j, end) && EndsLine(data, end)
    ensures StripFrom(data, j, LineComment, false) == Blank(data[j..end]) + StripFrom(data, end, Code, false)
    decreases end - j
  {
    if j == end {
      LineEnds(data, end, LineComment, false);
    } else {
      LineFrom(data, j + 1, end);
      assert data[j..j + 1] == [data[j]];
      BlankMore(data, j, j + 1, end, " ", StripFrom(data, end, Code, false));
    }
  }

  lemma {:induction false} BlockFrom(data: string, j: nat, end: nat)
    requires j <= end <= |data| && (forall k :: j <= k < end - 2 ==> !Pair(data, k, '*', '/'))
    requires (j + 2 <= end && Pair(data, end - 2, '*', '/')) ||
      (end == |data| && (j + 2 <= end ==> !Pair(data, end - 2, '*', '/')))
    ensures StripFrom(data, j, BlockComment, false) == Blank(data[j..end]) + StripFrom(data, end, Code, false)
    decreases end - j
  {
    if j == end {
      assert Blank(data[j..end]) == "";
    } else if Pair(data, j, '*', '/') {
      assert end == j + 2;
      assert data[j..end] == ['*', '/'];
    } else {
      BlockFrom(data, j + 1, end);
      var a := if data[j] == '\n' then "\n" else " ";
      assert data[j..j + 1] == [data[j]];
      BlankMore(data, j, j + 1, end, a, StripFrom(data, end, Code, false));
    }
  }

  function ModeOf(quote: char): Mode
  {
    if quote == '\'' then SingleString else if quote == '\"' then DoubleString else TemplateString
  }

  /** One character of a string that goes on behind it or is closed by it. */
  lemma {:induction false} QuotedTurn(data: string, i: nat, j: nat)
    requires i < j < |data| && data[i] in {'\'', '\"', '`'} && (data[i] != '`' ==> data[j] != '\n')
    ensures Closes(data, i, j) ==> data[j] != '\n'
    ensures var mode, a := ModeOf(data[i]), if data[j] == '\n' then "\n" else " ";
      StripFrom(data, j, mode, Escaped(data, i + 1, j)) ==
        a + if Closes(data, i, j) then StripFrom(data, j + 1, Code, false)
          else StripFrom(data, j + 1, mode, Escaped(data, i + 1, j + 1))
  {
    hide StripFrom, Escaped, TurnAt;
    var mode, escaped := ModeOf(data[i]), Escaped(data, i + 1, j);
    EscapedNext(data, i + 1, j);
    StringTurn(data, j, data[i], escaped);
    StripOne(data, j, mode, escaped);
  }

  lemma {:induction false} EscapedNext(data: string, from: nat, k: nat)
    requires from <= k < |data|
    ensures Escaped(data, from, k + 1) <==> data[k] == '\\' && !Escaped(data, from, k)
  {
  }

  lemma {:induction false} StringTurn(data: string, j: nat, quote: char, escaped: bool)
    requires j < |data| && quote in {'\'', '\"', '`'} && (quote != '`' ==> data[j] != '\n')
    ensures TurnAt(data, j, ModeOf(quote), escaped) ==
      if data[j] == quote && !escaped then Turn(" ", Code, false)
      else Turn(if data[j] == '\n' then "\n" else " ", ModeOf(quote), data[j] == '\\' && !escaped)
  {
  }

  lemma {:induction false} QuotedEnd(data: string, i: nat, end: nat)
    requires Is(data, i, Quoted(end)) && !Closes(data, i, end - 1)
    ensures var mode := ModeOf(data[i]);
      StripFrom(data, end, mode, Escaped(data, i + 1, end)) == StripFrom(data, end, Code, false)
  {
    hide Escaped, Closes, Opens;
    var mode, escaped := ModeOf(data[i]), Escaped(data, i + 1, end);
    if end < |data| {
      assert TurnAt(data, end, mode, escaped) == Turn("\n", Code, false) == TurnAt(data, end, Code, false);
      StripOne(data, end, mode, escaped);
      StripOne(data, end, Code, false);
    } else {
      StripAll(data);
    }
  }

  lemma {:induction false} QuotedAll(data: string, i: nat, end: nat)
    requires Is(data, i, Quoted(end))
    ensures i < end <= |data| && data[i] in {'\'', '\"', '`'} && (data[i] != '`' ==> OneLine(data, i, end))
    ensures forall k :: i < k < end - 1 ==> !Closes(data, i, k)
  {
  }

  lemma {:induction false} QuotedFrom(data: string, i: nat, j: nat, end: nat)
    requires Is(data, i, Quoted(end)) && i < j <= end && !Closes(data, i, j - 1)
    ensures StripFrom(data, j, ModeOf(data[i]), Escaped(data, i + 1, j)) ==
      Blank(data[j..end]) + StripFrom(data, end, Code, false)
    decreases end - j
  {
    hide Is, StripFrom, Escaped, Closes, ModeOf;
    QuotedAll(data, i, end);
    if j == end {
      QuotedEnd(data, i, end);
      assert Blank(data[j..end]) == "";
    } else {
      var a := if data[j] == '\n' then "\n" else " ";
      assert data[j..j + 1] == [data[j]];
      QuotedTurn(data, i, j);
      if Closes(data, i, j) {
        assert end == j + 1;
        assert Blank(data[j..end]) == " ";
      } else {
        QuotedFrom(data, i, j + 1, end);
        BlankMore(data, j, j + 1, end, a, StripFrom(data, end, Code, false));
      }
    }
  }

  lemma {:induction false} PartFrom(data: string, i: nat, p: Part)
    requires Is(data, i, p)
    ensures StripFrom(data, i, Code, false) ==
      (if p.Plain? then data[i..p.end] else Blank(data[i..p.end])) + StripFrom(data, p.end, Code, false)
  {
    hide Is, Escaped, Closes;
    IsOpener(data, i, p);
    var rest := StripFrom(data, p.end, Code, false);
    match p
    case Plain(end) => assert data[i..end] == [data[i]];
    case Line(end) =>
      CommentOpens(data, i, end, p);
      LineFrom(data, i + 2, end);
      BlankMore(data, i, i + 2, end, "  ", rest);
    case Block(end) =>
      CommentOpens(data, i, end, p);
      BlockFrom(data, i + 2, end);
      BlankMore(data, i, i + 2, end, "  ", rest);
    case Quoted(end) =>
      StringOpens(data, i, end);
      QuotedFrom(data, i, i + 1, end);
      BlankMore(data, i, i + 1, end, " ", rest);
  }

  lemma {:induction false} IsOpener(data: string, i: nat, p: Part)
    requires Is(data, i, p)
    ensures i < p.end <= |data|
    ensures p.Plain? ==> p.end == i + 1 && !Opens(data, i)
    ensures p.Line? ==> Pair(data, i, '/', '/')
    ensures p.Block? ==> Pair(data, i, '/', '*')
    ensures p.Quoted? ==> data[i] == '\'' || data[i] == '\"' || data[i] == '`'
  {
  }

  lemma {:induction false} CommentOpens(data: string, i: nat, end: nat, p: Part)
    requires Is(data, i, p) && p.end == end && (p.Line? || p.Block?)
    ensures i + 2 <= end && Blank(data[i..i + 2]) == "  "
    ensures p.Line? ==> OneLine(data, i + 2, end) && EndsLine(data, end)
    ensures p.Block? ==> forall k :: i + 2 <= k < end - 2 ==> !Pair(data, k, '*', '/')
    ensures p.Block? ==>
      (i + 4 <= end && Pair(data, end - 2, '*', '/')) ||
        (end == |data| && (i + 4 <= end ==> !Pair(data, end - 2, '*', '/')))
  {
    assert data[i..i + 2] == [data[i], data[i + 1]];
  }

  lemma {:induction false} StringOpens(data: string, i: nat, end: nat)
    requires Is(data, i, Quoted(end))
    ensures Blank(data[i..i + 1]) == " " && !Closes(data, i, i) && !Escaped(data, i + 1, i + 1)
  {
    assert data[i..i + 1] == [data[i]];
  }

  /** For every division of a text into code, comments and strings, the code is kept and the rest
      is blanked. */
  lemma {:induction false} StripDivided(data: string, i: nat, parts: seq<Part>)
    requires Divides(data, i, parts)
    ensures i <= |data| && StripFrom(data, i, Code, false) == Render(data, i, parts)
    decreases |parts|
  {
    hide Is, StripFrom;
    if parts == [] {
      StripAll(data);
    } else {
      IsOpener(data, i, parts[0]);
      PartFrom(data, i, parts[0]);
      StripDivided(data, parts[0].end, parts[1..]);
    }
  }

  /** Every text has such a division. */
  lemma {:induction false} Division(data: string, i: nat) returns (parts: seq<Part>)
    requires i <= |data|
    ensures Divides(data, i, parts)
    decreases |data| - i
  {
    hide Is;
    if i == |data| {
      parts := [];
    } else {
      var p := PartAt(data, i);
      IsOpener(data, i, p);
      var rest := Division(data, p.end);
      parts := [p] + rest;
      assert parts[1..] == rest;
    }
  }

  lemma {:induction false} PartAt(data: string, i: nat) returns (p: Part)
    requires i < |data|
    ensures Is(data, i, p)
  {
    var end := i + 1;
    if !Opens(data, i) {
      p := Plain(end);
    } else if Pair(data, i, '/', '/') {
      while !EndsLine(data, end)
        decreases |data| - end
        invariant i < end <= |data| && OneLine(data, i, end)
      {
        end := end + 1;
      }
      p := Line(end);
    } else if Pair(data, i, '/', '*') {
      p := BlockAt(data, i);
    } else {
      p := QuotedAt(data, i);
    }
  }

  lemma {:induction false} BlockAt(data: string, i: nat) returns (p: Part)
    requires i < |data| && Pair(data, i, '/', '*')
    ensures Is(data, i, p)
  {
    var k := i + 2;
    while k < |data| && !Pair(data, k, '*', '/')
      invariant i + 2 <= k <= |data| && forall m :: i + 2 <= m < k ==> !Pair(data, m, '*', '/')
    {
      k := k + 1;
    }
    p := Block(if k < |data| then k + 2 else k);
  }

  lemma {:induction false} QuotedAt(data: string, i: nat) returns (p: Part)
    requires i < |data| && data[i] in {'\'', '\"', '`'}
    ensures Is(data, i, p)
  {
    var k := i + 1;
    while k < |data| && !Closes(data, i, k) && (data[i] == '`' || data[k] != '\n')
      invariant i < k <= |data| && forall m :: i < m < k ==> !Closes(data, i, m)
      invariant data[i] != '`' ==> OneLine(data, i, k)
    {
      k := k + 1;
    }
    p := Quoted(if k < |data| && Closes(data, i, k) then k + 1 else k);
  }
}
