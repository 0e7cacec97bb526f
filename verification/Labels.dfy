/**
 ENUM and SET declarations and SET values: the parser of quoted label lists, which undoes quoting, and
 the bitmask decoding of a SET value over the declared labels.
 */
module Labels {
  import opened Outcomes

  datatype LabelError =
    | NotQuoted | DanglingEscape | BadLabel | DuplicateLabel | NotSeparated | NoMembers | OutsideDeclaration

  // ---------------------------------------------------------------- characters

  /** `char::is_whitespace`: the Unicode White_Space property. */
  predicate IsWhitespace(c: char) {
    var n := c as int;
    || 0x09 <= n <= 0x0d || n == 0x20 || n == 0x85 || n == 0xa0 || n == 0x1680 || 0x2000 <= n <= 0x200a
    || n == 0x2028 || n == 0x2029 || n == 0x202f || n == 0x205f || n == 0x3000
  }

  const NUL := '\0'

  function Unescape(c: char): char {
    match c
    case '0' => NUL
    case 'b' => '\U{0008}'
    case 'n' => '\n'
    case 'r' => '\r'
    case 't' => '\t'
    case 'Z' => '\U{001A}'
    case other => other
  }

  predicate GoodLabel(name: string) {
    name != "" && NUL !in name
  }

  predicate Distinct(labels: seq<string>) {
    forall i, j :: 0 <= i < j < |labels| ==> labels[i] != labels[j]
  }

  /** What a declaration may list: at least one label, all of them distinct, non-empty and without NUL. */
  predicate Declarable(labels: seq<string>) {
    |labels| > 0 && Distinct(labels) && forall l :: l in labels ==> GoodLabel(l)
  }

  // ---------------------------------------------------------------- the grammar

  function SkipSpace(s: string): (r: string)
    ensures |r| <= |s| && (r == "" || !IsWhitespace(r[0]))
  {
    if |s| > 0 && IsWhitespace(s[0]) then SkipSpace(s[1..]) else s
  }

  /** A label body and what follows its closing quote. */
  datatype Body = Body(name: string, rest: string)

  function Prepend(prefix: string, body: Result<Body, LabelError>): Result<Body, LabelError> {
    match body
    case Ok(b) => Ok(Body(prefix + b.name, b.rest))
    case Err(e) => Err(e)
  }

  /** Reads a label after its opening quote. */
  function ReadBody(s: string): (r: Result<Body, LabelError>)
    ensures r.Ok? ==> |r.value.rest| < |s|
  {
    if s == "" then Err(BadLabel)
    else if s[0] == '\\' then
      if |s| == 1 then Err(DanglingEscape) else Prepend([Unescape(s[1])], ReadBody(s[2..]))
    else if s[0] == '\'' then
      if |s| > 1 && s[1] == '\'' then Prepend("'", ReadBody(s[2..])) else Ok(Body("", s[1..]))
    else Prepend([s[0]], ReadBody(s[1..]))
  }

  /** The label list from here on, after the labels already known. */
  function ReadMembers(s: string, known: seq<string>): Result<seq<string>, LabelError>
    decreases |s|
  {
    var start := SkipSpace(s);
    if start == "" then if known == [] then Err(NoMembers) else Ok(known)
    else if start[0] != '\'' then Err(NotQuoted)
    else
      var body := ReadBody(start[1..]);
      if body.Err? then Err(body.error)
      else if !GoodLabel(body.value.name) then Err(BadLabel)
      else if body.value.name in known then Err(DuplicateLabel)
      else
        var members := known + [body.value.name];
        var next := SkipSpace(body.value.rest);
        if next == "" then Ok(members)
        else if next[0] == ',' then ReadMembers(next[1..], members)
        else Err(NotSeparated)
  }

  // ---------------------------------------------------------------- the parser

  /** The source's loop over a character iterator; `chars` is what the iterator has left. */
  method ParseQuotedMembers(value: string) returns (r: Result<seq<string>, LabelError>)
    ensures r == ReadMembers(value, [])
  {
    var chars := value;
    var members: seq<string> := [];
    while true
      invariant ReadMembers(value, []) == ReadMembers(chars, members)
      decreases |chars|
    {
      ghost var here := chars;
      while |chars| > 0 && IsWhitespace(chars[0])
        invariant |chars| <= |here| && SkipSpace(chars) == SkipSpace(here)
      {
        chars := chars[1..];
      }
      if chars == "" {
        break;
      }
      if chars[0] != '\'' {
        return Err(NotQuoted);
      }
      chars := chars[1..];
      ghost var start := chars;
      var member, closed := "", false;
      PrependTwice("", "", ReadBody(start));
      while chars != "" && !closed
        invariant |chars| <= |start|
        invariant if closed then ReadBody(start) == Ok(Body(member, chars))
                  else ReadBody(start) == Prepend(member, ReadBody(chars))
        decreases |chars|
      {
        var c := chars[0];
        chars := chars[1..];
        if c == '\\' {
          if chars == "" {
            return Err(DanglingEscape);
          }
          PrependTwice(member, [Unescape(chars[0])], ReadBody(chars[1..]));
          member, chars := member + [Unescape(chars[0])], chars[1..];
        } else if c == '\'' && chars != "" && chars[0] == '\'' {
          PrependTwice(member, "'", ReadBody(chars[1..]));
          member, chars := member + "'", chars[1..];
        } else if c == '\'' {
          assert member + "" == member;
          closed := true;
        } else {
          PrependTwice(member, [c], ReadBody(chars));
          member := member + [c];
        }
      }
      if !closed || member == "" || NUL in member {
        return Err(BadLabel);
      }
      if member in members {
        return Err(DuplicateLabel);
      }
      members := members + [member];
      ghost var after := chars;
      while |chars| > 0 && IsWhitespace(chars[0])
        invariant |chars| <= |after| && SkipSpace(chars) == SkipSpace(after)
      {
        chars := chars[1..];
      }
      if chars == "" {
        return Ok(members);
      } else if chars[0] == ',' {
        chars := chars[1..];
      } else {
        return Err(NotSeparated);
      }
    }
    if members == [] {
      return Err(NoMembers);
    }
    return Ok(members);
  }

  lemma {:induction false} PrependTwice(a: string, b: string, body: Result<Body, LabelError>)
    ensures Prepend(a, Prepend(b, body)) == Prepend(a + b, body)
    ensures Prepend("", body) == body
  {
    if body.Ok? {
      assert a + (b + body.value.name) == a + b + body.value.name;
      assert "" + body.value.name == body.value.name;
    }
  }

  // ---------------------------------------------------------------- quoting

  function EscapeChar(c: char): string {
    if c == '\'' then "''" else if c == '\\' then "\\\\" else [c]
  }

  function Escape(name: string): string {
    if name == "" then "" else EscapeChar(name[0]) + Escape(name[1..])
  }

  function Quote(name: string): string {
    "'" + Escape(name) + "'"
  }

  function Render(labels: seq<string>): string {
    if labels == [] then ""
    else if |labels| == 1 then Quote(labels[0])
    else Quote(labels[0]) + "," + Render(labels[1..])
  }

  lemma {:induction false} ReadEscapedChar(c: char, rest: string)
    ensures ReadBody(EscapeChar(c) + rest) == Prepend([c], ReadBody(rest))
  {
    var s := EscapeChar(c) + rest;
    if c == '\'' || c == '\\' {
      assert s[2..] == rest;
    } else {
      assert s[1..] == rest;
    }
  }

  /** Reading undoes escaping, for any label and any continuation that does not open another quote. */
  lemma {:induction false} ReadEscaped(name: string, rest: string)
    requires rest == "" || rest[0] != '\''
    ensures ReadBody(Escape(name) + ("'" + rest)) == Ok(Body(name, rest))
  {
    if name == "" {
      assert "" + ("'" + rest) == "'" + rest;
      assert ("'" + rest)[1..] == rest;
    } else {
      var tail := Escape(name[1..]) + ("'" + rest);
      ReadEscaped(name[1..], rest);
      ReadEscapedChar(name[0], tail);
      PrefixFirst(EscapeChar(name[0]), Escape(name[1..]), "'" + rest);
      assert [name[0]] + name[1..] == name;
    }
  }

  lemma {:induction false} NoSpaceToSkip(s: string)
    requires s == "" || s[0] == '\'' || s[0] == ','
    ensures SkipSpace(s) == s
  {
  }

  lemma {:induction false} ReadMembersStep(s: string, name: string, rest: string, known: seq<string>)
    requires s != "" && s[0] == '\'' && SkipSpace(s) == s && SkipSpace(rest) == rest
    requires ReadBody(s[1..]) == Ok(Body(name, rest))
    requires GoodLabel(name) && name !in known && (rest == "" || rest[0] == ',')
    ensures ReadMembers(s, known) == if rest == "" then Ok(known + [name]) else ReadMembers(rest[1..], known + [name])
  {
  }

  lemma {:induction false} QuotedTail(body: string, rest: string)
    ensures
      var s := "'" + body + "'" + rest;
      s != "" && s[0] == '\'' && s[1..] == body + ("'" + rest)
  {
  }

  lemma {:induction false} PrefixFirst(a: string, b: string, c: string)
    ensures a + b + c == a + (b + c)
  {
  }

  /** One quoted label is read off, and the list goes on after its comma. */
  lemma {:induction false} ReadQuoted(name: string, rest: string, known: seq<string>)
    requires GoodLabel(name) && name !in known
    requires rest == "" || rest[0] == ','
    ensures ReadMembers(Quote(name) + rest, known)
            == if rest == "" then Ok(known + [name]) else ReadMembers(rest[1..], known + [name])
  {
    var s := Quote(name) + rest;
    ReadEscaped(name, rest);
    QuotedTail(Escape(name), rest);
    NoSpaceToSkip(s);
    NoSpaceToSkip(rest);
    ReadMembersStep(s, name, rest, known);
  }

  /** Parsing undoes quoting: every declarable list comes back from its quoted, comma-joined form. */
  lemma {:induction false} ParseRendered(labels: seq<string>, known: seq<string>)
    requires |labels| > 0 && Declarable(known + labels)
    ensures ReadMembers(Render(labels), known) == Ok(known + labels)
    decreases |labels|
  {
    var name := labels[0];
    HeadIsNew(labels, known);
    if |labels| == 1 {
      ReadQuoted(name, "", known);
      assert Quote(name) + "" == Quote(name);
    } else {
      var rest := "," + Render(labels[1..]);
      assert Render(labels) == Quote(name) + rest && rest[1..] == Render(labels[1..]);
      ReadQuoted(name, rest, known);
      ParseRendered(labels[1..], known + [name]);
    }
  }

  lemma {:induction false} HeadIsNew(labels: seq<string>, known: seq<string>)
    requires |labels| > 0 && Declarable(known + labels)
    ensures GoodLabel(labels[0]) && labels[0] !in known
    ensures known + labels == known + [labels[0]] + labels[1..]
    ensures |labels| == 1 ==> known + labels == known + [labels[0]]
  {
    assert (known + labels)[|known|] == labels[0];
    assert forall i :: 0 <= i < |known| ==> (known + labels)[i] == known[i];
  }

  /** Whatever the parser returns is declarable, so rendering it and parsing again gives the same list. */
  lemma {:induction false} ParsedIsDeclarable(s: string, known: seq<string>)
    requires known == [] || Declarable(known)
    ensures ReadMembers(s, known).Ok? ==> Declarable(ReadMembers(s, known).value)
    decreases |s|
  {
    var start := SkipSpace(s);
    if start != "" && start[0] == '\'' {
      var body := ReadBody(start[1..]);
      if body.Ok? && GoodLabel(body.value.name) && body.value.name !in known {
        var members := known + [body.value.name];
        assert Declarable(members);
        var next := SkipSpace(body.value.rest);
        if next != "" && next[0] == ',' {
          ParsedIsDeclarable(next[1..], members);
        }
      }
    }
  }

  /** Parsing and quoting undo each other on all the inputs either accepts. */
  lemma {:induction false} QuotingRoundTrip(labels: seq<string>, text: string)
    ensures Declarable(labels) <==> ReadMembers(Render(labels), []) == Ok(labels)
    ensures ReadMembers(text, []).Ok? ==>
              ReadMembers(Render(ReadMembers(text, []).value), []) == ReadMembers(text, [])
  {
    ParsedIsDeclarable(Render(labels), []);
    if Declarable(labels) {
      assert [] + labels == labels;
      ParseRendered(labels, []);
    }
    ParsedIsDeclarable(text, []);
    if ReadMembers(text, []).Ok? {
      assert [] + ReadMembers(text, []).value == ReadMembers(text, []).value;
      ParseRendered(ReadMembers(text, []).value, []);
    }
  }

  // ---------------------------------------------------------------- white space

  ghost predicate White(s: string) {
    forall i :: 0 <= i < |s| ==> IsWhitespace(s[i])
  }

  /** A quoted list with white space around its labels and, if `trailing` is some, a comma after the last. */
  function Loose(labels: seq<string>, pads: seq<(string, string)>, trailing: Option<string>): string
    requires |pads| == |labels|
    decreases |labels|, 1
  {
    if labels == [] then ""
    else pads[0].0 + (Quote(labels[0]) + (pads[0].1 + LooseTail(labels, pads, trailing)))
  }

  function LooseTail(labels: seq<string>, pads: seq<(string, string)>, trailing: Option<string>): string
    requires |pads| == |labels| > 0
    decreases |labels|, 0
  {
    if |labels| > 1 then "," + Loose(labels[1..], pads[1..], trailing)
    else if trailing.Some? then "," + trailing.value else ""
  }

  lemma {:induction false} SpaceIsSkipped(spaces: string, s: string)
    requires White(spaces)
    ensures SkipSpace(spaces + s) == SkipSpace(s)
    decreases |spaces|
  {
    if spaces == "" {
      assert spaces + s == s;
    } else {
      assert (spaces + s)[1..] == spaces[1..] + s;
      SpaceIsSkipped(spaces[1..], s);
    }
  }

  /** One label with white space before and after it. */
  lemma {:induction false} ReadPadded(before: string, name: string, after: string, tail: string, known: seq<string>)
    requires White(before) && White(after) && GoodLabel(name) && name !in known
    requires tail == "" || tail[0] == ','
    ensures ReadMembers(before + (Quote(name) + (after + tail)), known)
            == if tail == "" then Ok(known + [name]) else ReadMembers(tail[1..], known + [name])
  {
    var rest := after + tail;
    var s := Quote(name) + rest;
    SpaceIsSkipped(before, s);
    SpaceIsSkipped(after, tail);
    NoSpaceToSkip(tail);
    assert rest == "" || rest[0] != '\'';
    ReadEscaped(name, rest);
    QuotedTail(Escape(name), rest);
    NoSpaceToSkip(s);
    PaddedStep(before + s, s, name, rest, tail, known);
  }

  lemma {:induction false} PaddedStep(text: string, s: string, name: string, rest: string, tail: string,
                                      known: seq<string>)
    requires SkipSpace(text) == s && s != "" && s[0] == '\'' && ReadBody(s[1..]) == Ok(Body(name, rest))
    requires SkipSpace(rest) == tail && (tail == "" || tail[0] == ',') && GoodLabel(name) && name !in known
    ensures ReadMembers(text, known)
            == if tail == "" then Ok(known + [name]) else ReadMembers(tail[1..], known + [name])
  {
  }

  /** White space around the labels, and a comma after the last one, change nothing. */
  lemma {:induction false} LooseIsParsed(labels: seq<string>, pads: seq<(string, string)>, trailing: Option<string>,
                                         known: seq<string>)
    requires |pads| == |labels| > 0 && Declarable(known + labels) && (trailing.Some? ==> White(trailing.value))
    requires forall i :: 0 <= i < |pads| ==> White(pads[i].0) && White(pads[i].1)
    ensures ReadMembers(Loose(labels, pads, trailing), known) == Ok(known + labels)
    decreases |labels|
  {
    var name, tail := labels[0], LooseTail(labels, pads, trailing);
    HeadIsNew(labels, known);
    ReadPadded(pads[0].0, name, pads[0].1, tail, known);
    if |labels| > 1 {
      assert tail[1..] == Loose(labels[1..], pads[1..], trailing);
      LooseIsParsed(labels[1..], pads[1..], trailing, known + [name]);
    } else if trailing.Some? {
      assert tail[1..] == trailing.value + "" && trailing.value + "" == trailing.value;
      SpaceIsSkipped(trailing.value, "");
    }
  }

  // ---------------------------------------------------------------- escapes

  /** What a backslash and a letter stand for inside quotes. */
  ghost predicate StandsFor(escape: char, c: char) {
    || (escape == 'b' && c as int == 8) || (escape == 't' && c as int == 9) || (escape == 'n' && c as int == 10)
    || (escape == 'r' && c as int == 13) || (escape == 'Z' && c as int == 26)
    || (escape !in {'0', 'b', 't', 'n', 'r', 'Z'} && c == escape)
  }

  /** A label of one escaped character parses to what it stands for; an escaped NUL is no label. */
  lemma {:induction false} EscapeIsRead(escape: char, c: char)
    requires escape == '0' || StandsFor(escape, c)
    requires c != NUL
    ensures ReadMembers("'\\" + [escape] + "'", []) == if escape == '0' then Err(BadLabel) else Ok([[c]])
  {
    var text := "'\\" + [escape] + "'";
    var body, rest := text[1..], text[3..];
    assert !IsWhitespace(text[0]) && SkipSpace(text) == text;
    assert body[0] == '\\' && body[1] == escape && body[2..] == rest && rest == "'";
    assert ReadBody(rest) == Ok(Body("", "")) by { assert rest[1..] == ""; }
    assert ReadBody(body) == Ok(Body([Unescape(escape)] + "", ""));
    assert [Unescape(escape)] + "" == [Unescape(escape)];
    assert SkipSpace("") == "";
    assert [] + [[Unescape(escape)]] == [[Unescape(escape)]];
  }

  // ---------------------------------------------------------------- SET bitmasks

  function Power2(n: nat): (p: nat)
    ensures p > 0
  {
    if n == 0 then 1 else 2 * Power2(n - 1)
  }

  const U64_LIMIT := 0x1_0000_0000_0000_0000

  /** `value >> n`. */
  function ShiftRight(value: nat, n: nat): nat {
    if n == 0 then value else ShiftRight(value / 2, n - 1)
  }

  /** `value & (1 << index) != 0`. */
  predicate HasBit(value: nat, index: nat) {
    ShiftRight(value, index) % 2 == 1
  }

  /** The labels from `index` on whose bit is set. */
  function Selected(members: seq<string>, value: nat, index: nat): seq<string>
    requires index <= |members|
    decreases |members| - index
  {
    if index == |members| then []
    else (if HasBit(value, index) then [members[index]] else []) + Selected(members, value, index + 1)
  }

  /** A SET value from its 64-bit mask, over at most 64 declared labels. */
  function DecodeSet(members: seq<string>, value: nat): Result<seq<string>, LabelError>
    requires |members| <= 64 && value < U64_LIMIT
  {
    if |members| < 64 && ShiftRight(value, |members|) != 0 then Err(OutsideDeclaration)
    else Ok(Selected(members, value, 0))
  }

  /** The mask whose bits are the declared labels occurring in `chosen`. */
  function MaskOf(members: seq<string>, chosen: seq<string>, index: nat): nat
    requires index <= |members|
    decreases |members| - index
  {
    if index == |members| then 0
    else (if members[index] in chosen then Power2(index) else 0) + MaskOf(members, chosen, index + 1)
  }

  lemma {:induction false} SelectedExactly(members: seq<string>, value: nat, index: nat)
    requires index <= |members| && Distinct(members)
    ensures forall i :: index <= i < |members| ==> (members[i] in Selected(members, value, index) <==> HasBit(value, i))
    ensures forall l :: l in Selected(members, value, index) ==> exists i :: index <= i < |members| && members[i] == l
    decreases |members| - index
  {
    if index < |members| {
      SelectedExactly(members, value, index + 1);
      var tail := Selected(members, value, index + 1);
      assert Selected(members, value, index) == (if HasBit(value, index) then [members[index]] else []) + tail;
      assert members[index] !in tail;
    }
  }

  lemma {:induction false} ShiftOnce(value: nat, n: nat)
    ensures ShiftRight(value, n + 1) == ShiftRight(value, n) / 2
  {
    if n > 0 {
      ShiftOnce(value / 2, n - 1);
    }
  }

  lemma {:induction false} ShiftedOut(value: nat, n: nat)
    ensures ShiftRight(value, n) == 0 <==> value < Power2(n)
  {
    if n > 0 {
      ShiftedOut(value / 2, n - 1);
    }
  }

  lemma {:induction false} Power2Add(a: nat, b: nat)
    ensures Power2(a + b) == Power2(a) * Power2(b)
  {
    if a > 0 {
      Power2Add(a - 1, b);
      assert Power2(a + b) == 2 * Power2(a - 1 + b);
    }
  }

  lemma {:induction false} WidthLimit()
    ensures Power2(64) == U64_LIMIT
  {
    assert Power2(4) == 16;
    assert Power2(8) == 0x100 by { Power2Add(4, 4); }
    assert Power2(16) == 0x1_0000 by { Power2Add(8, 8); }
    assert Power2(32) == 0x1_0000_0000 by { Power2Add(16, 16); }
    Power2Add(32, 32);
  }

  /** The bits at and above `index` are what shifting leaves, moved back into place. */
  lemma {:induction false} MaskRemainder(members: seq<string>, chosen: seq<string>, value: nat, index: nat)
    requires index <= |members|
    requires forall i :: index <= i < |members| ==> (members[i] in chosen <==> HasBit(value, i))
    requires ShiftRight(value, |members|) == 0
    ensures MaskOf(members, chosen, index) == ShiftRight(value, index) * Power2(index)
    decreases |members| - index
  {
    if index < |members| {
      MaskRemainder(members, chosen, value, index + 1);
      ShiftOnce(value, index);
      Halves(ShiftRight(value, index), Power2(index));
    }
  }

  lemma {:induction false} Halves(n: nat, unit: nat)
    ensures n * unit == n / 2 * (2 * unit) + n % 2 * unit
  {
    var h := n / 2;
    assert n * unit == (2 * h + n % 2) * unit;
    assert (2 * h + n % 2) * unit == 2 * h * unit + n % 2 * unit;
  }

  /**
   Decoding accepts a mask exactly when it names only declared labels; the result holds exactly the
   labels whose bit is set, and the mask can be rebuilt from it.
   */
  lemma {:induction false} SetDecoding(members: seq<string>, value: nat)
    requires |members| <= 64 && Distinct(members) && value < U64_LIMIT
    ensures DecodeSet(members, value).Ok? <==> value < Power2(|members|)
    ensures DecodeSet(members, value).Ok? ==>
              var chosen := DecodeSet(members, value).value;
              && (forall i :: 0 <= i < |members| ==> (members[i] in chosen <==> HasBit(value, i)))
              && (forall l :: l in chosen ==> l in members)
              && MaskOf(members, chosen, 0) == value
  {
    ShiftedOut(value, |members|);
    WidthLimit();
    SelectedExactly(members, value, 0);
    if value < Power2(|members|) {
      MaskRemainder(members, Selected(members, value, 0), value, 0);
    }
  }

  /** The set bits from `index` on, in increasing order. */
  function Places(n: nat, value: nat, index: nat): (places: seq<nat>)
    requires index <= n
    ensures forall i :: 0 <= i < |places| ==> index <= places[i] < n
    ensures forall i, j :: 0 <= i < j < |places| ==> places[i] < places[j]
    decreases n - index
  {
    if index == n then [] else (if HasBit(value, index) then [index] else []) + Places(n, value, index + 1)
  }

  /** Declared order, without repetition: the result reads the declaration at strictly increasing places. */
  lemma {:induction false} SetKeepsDeclaredOrder(members: seq<string>, value: nat, index: nat)
    requires index <= |members|
    ensures
      var places := Places(|members|, value, index);
      && |places| == |Selected(members, value, index)|
      && forall i :: 0 <= i < |places| ==> Selected(members, value, index)[i] == members[places[i]]
    decreases |members| - index
  {
    if index < |members| {
      SetKeepsDeclaredOrder(members, value, index + 1);
    }
  }
}
