// The two halves of Python's json that a stored packet passes through: json.dumps with
// indent=2 and ensure_ascii=False, and json.loads (RFC 8259). The point of the module is the
// round trip: what is printed parses back to the same document.
module JsonText {
  import opened Prelude
  import CanonicalJson

  datatype Json =
    | Null
    | Bool(b: bool)
    | Int(n: int)
    | Str(s: string)
    | Arr(items: seq<Json>)
    | Obj(members: seq<(string, Json)>)

  // A Python dict has no two members of one name.
  ghost predicate WellFormed(v: Json) {
    match v
    case Arr(items) => forall i :: 0 <= i < |items| ==> WellFormed(items[i])
    case Obj(members) =>
      && (forall i :: 0 <= i < |members| ==> WellFormed(members[i].1))
      && (forall i, j :: 0 <= i < j < |members| ==> members[i].0 != members[j].0)
    case _ => true
  }

  // ---- Printing ----

  function CharText(c: char): (r: string)
    ensures |r| > 0 && r[0] != '"'
  {
    if c == '"' then "\\\""
    else if c == '\\' then "\\\\"
    else if c == '\n' then "\\n"
    else if c == '\r' then "\\r"
    else if c == '\t' then "\\t"
    else if c == '\U{0008}' then "\\b"
    else if c == '\U{000C}' then "\\f"
    else if c < ' ' then CanonicalJson.UnitText(c as int)
    else [c]
  }

  function CharsText(s: string): string {
    if s == "" then "" else CharText(s[0]) + CharsText(s[1..])
  }

  function Quoted(s: string): string {
    ['"'] + CharsText(s) + ['"']
  }

  function Spaces(n: nat): string {
    if n == 0 then "" else [' '] + Spaces(n - 1)
  }

  function NewLine(level: nat): string {
    ['\n'] + Spaces(2 * level)
  }

  function Render(v: Json, level: nat): string
    decreases v, 1, 0
  {
    match v
    case Null => "null"
    case Bool(b) => if b then "true" else "false"
    case Int(n) => CanonicalJson.IntText(n)
    case Str(s) => Quoted(s)
    case Arr(items) => if items == [] then "[]" else ['['] + NewLine(level + 1) + RenderItems(v, 0, level + 1)
    case Obj(members) => if members == [] then "{}" else ['{'] + NewLine(level + 1) + RenderMembers(v, 0, level + 1)
  }

  // The items from the i-th on, with the closing bracket.
  function RenderItems(v: Json, i: nat, level: nat): string
    requires v.Arr? && i < |v.items| && level > 0
    decreases v, 0, |v.items| - i
  {
    Render(v.items[i], level) +
    if i + 1 < |v.items| then [','] + NewLine(level) + RenderItems(v, i + 1, level) else NewLine(level - 1) + [']']
  }

  function RenderMembers(v: Json, i: nat, level: nat): string
    requires v.Obj? && i < |v.members| && level > 0
    decreases v, 0, |v.members| - i
  {
    Quoted(v.members[i].0) + ": " + Render(v.members[i].1, level) +
    if i + 1 < |v.members| then [','] + NewLine(level) + RenderMembers(v, i + 1, level) else NewLine(level - 1) + ['}']
  }

  // ---- Parsing ----

  // What was read, and the text after it.
  type Read<+T> = Option<(T, string)>

  function SkipSpace(s: string): (r: string)
    ensures |r| <= |s|
  {
    if s != "" && (s[0] == ' ' || s[0] == '\t' || s[0] == '\n' || s[0] == '\r') then SkipSpace(s[1..]) else s
  }

  function HexValue(c: char): Option<int> {
    if '0' <= c <= '9' then Some(c as int - '0' as int)
    else if 'a' <= c <= 'f' then Some(c as int - 'a' as int + 10)
    else if 'A' <= c <= 'F' then Some(c as int - 'A' as int + 10)
    else None
  }

  // The four digits of a \u escape. Surrogates are not joined here: they do not parse.
  function ReadUnit(s: string): (r: Read<char>)
    ensures r.Some? ==> |r.value.1| < |s|
  {
    if |s| < 4 then None
    else
      var a, b, c, d := HexValue(s[0]), HexValue(s[1]), HexValue(s[2]), HexValue(s[3]);
      if a.None? || b.None? || c.None? || d.None? then None
      else
        var n := a.value * 0x1000 + b.value * 0x100 + c.value * 0x10 + d.value;
        if 0 <= n < 0xD800 || 0xE000 <= n < 0x1_0000 then Some((n as char, s[4..])) else None
  }

  // One character after a backslash.
  function ReadEscape(s: string): (r: Read<char>)
    ensures r.Some? ==> |r.value.1| < |s|
  {
    if s == "" then None
    else if s[0] == '"' || s[0] == '\\' || s[0] == '/' then Some((s[0], s[1..]))
    else if s[0] == 'n' then Some(('\n', s[1..]))
    else if s[0] == 'r' then Some(('\r', s[1..]))
    else if s[0] == 't' then Some(('\t', s[1..]))
    else if s[0] == 'b' then Some(('\U{0008}', s[1..]))
    else if s[0] == 'f' then Some(('\U{000C}', s[1..]))
    else if s[0] == 'u' then ReadUnit(s[1..])
    else None
  }

  // The rest of a string literal, after its opening quote.
  function ReadChars(s: string): (r: Read<string>)
    ensures r.Some? ==> |r.value.1| < |s|
  {
    if s == "" || s[0] < ' ' then None
    else if s[0] == '"' then Some(("", s[1..]))
    else
      var c := if s[0] == '\\' then ReadEscape(s[1..]) else Some((s[0], s[1..]));
      if c.None? then None
      else
        var more := ReadChars(c.value.1);
        if more.None? then None else Some(([c.value.0] + more.value.0, more.value.1))
  }

  function ReadDigits(s: string, n: nat): (r: (nat, string))
    ensures |r.1| <= |s|
  {
    if s != "" && CanonicalJson.IsDigit(s[0]) then ReadDigits(s[1..], 10 * n + (s[0] as int - '0' as int)) else (n, s)
  }

  // A fraction or an exponent makes the number a float, which no packet holds.
  predicate EndsInt(s: string) {
    s == "" || (s[0] != '.' && s[0] != 'e' && s[0] != 'E')
  }

  function ReadNat(s: string): (r: Read<nat>)
    ensures r.Some? ==> |r.value.1| < |s|
  {
    if s == "" || !CanonicalJson.IsDigit(s[0]) then None
    else
      var r := if s[0] == '0' then (0, s[1..]) else ReadDigits(s[1..], s[0] as int - '0' as int);
      if EndsInt(r.1) then Some(r) else None
  }

  function Literal(s: string, word: string, v: Json): (r: Read<Json>)
    requires word != ""
    ensures r.Some? ==> |r.value.1| < |s|
  {
    if word <= s then Some((v, s[|word|..])) else None
  }

  // dict(pairs): a repeated name keeps its place and takes the later value.
  function Put(members: seq<(string, Json)>, k: string, v: Json): seq<(string, Json)> {
    if members == [] then [(k, v)]
    else if members[0].0 == k then [(k, v)] + members[1..]
    else [members[0]] + Put(members[1..], k, v)
  }

  function ReadValue(s: string): (r: Read<Json>)
    ensures r.Some? ==> |r.value.1| < |s|
    decreases |s|, 1
  {
    if s == "" then None
    else if s[0] == '"' then
      var t := ReadChars(s[1..]);
      if t.None? then None else Some((Str(t.value.0), t.value.1))
    else if s[0] == '[' then
      var t := SkipSpace(s[1..]);
      if t != "" && t[0] == ']' then Some((Arr([]), t[1..])) else ReadItems(t, [])
    else if s[0] == '{' then
      var t := SkipSpace(s[1..]);
      if t != "" && t[0] == '}' then Some((Obj([]), t[1..])) else ReadMembers(t, [])
    else if s[0] == '-' then
      var n := ReadNat(s[1..]);
      if n.None? then None else Some((Int(0 - n.value.0), n.value.1))
    else if CanonicalJson.IsDigit(s[0]) then
      var n := ReadNat(s);
      if n.None? then None else Some((Int(n.value.0), n.value.1))
    else if s[0] == 'n' then Literal(s, "null", Null)
    else if s[0] == 't' then Literal(s, "true", Bool(true))
    else Literal(s, "false", Bool(false))
  }

  // The rest of an array, from an item on.
  function ReadItems(s: string, acc: seq<Json>): (r: Read<Json>)
    ensures r.Some? ==> |r.value.1| < |s|
    decreases |s|, 2
  {
    var v := ReadValue(s);
    if v.None? then None
    else
      var items, t := acc + [v.value.0], SkipSpace(v.value.1);
      if t == "" then None
      else if t[0] == ']' then Some((Arr(items), t[1..]))
      else if t[0] == ',' then ReadItems(SkipSpace(t[1..]), items)
      else None
  }

  // One member: a quoted name, a colon and a value.
  function ReadMember(s: string): (r: Read<(string, Json)>)
    ensures r.Some? ==> |r.value.1| < |s|
    decreases |s|, 0
  {
    if s == "" || s[0] != '"' then None
    else
      var k := ReadChars(s[1..]);
      if k.None? then None
      else
        var t := SkipSpace(k.value.1);
        if t == "" || t[0] != ':' then None
        else
          var v := ReadValue(SkipSpace(t[1..]));
          if v.None? then None else Some(((k.value.0, v.value.0), v.value.1))
  }

  function ReadMembers(s: string, acc: seq<(string, Json)>): (r: Read<Json>)
    ensures r.Some? ==> |r.value.1| < |s|
    decreases |s|, 2
  {
    var m := ReadMember(s);
    if m.None? then None
    else
      var members, t := Put(acc, m.value.0.0, m.value.0.1), SkipSpace(m.value.1);
      if t == "" then None
      else if t[0] == '}' then Some((Obj(members), t[1..]))
      else if t[0] == ',' then ReadMembers(SkipSpace(t[1..]), members)
      else None
  }

  function Load(text: string): Option<Json> {
    var v := ReadValue(SkipSpace(text));
    if v.Some? && SkipSpace(v.value.1) == "" then Some(v.value.0) else None
  }

  function Dump(v: Json): string {
    Render(v, 0)
  }

  // ---- Strings and numbers read back ----

  lemma ReadsChar(c: char, rest: string)
    ensures var s := CharText(c) + rest;
            && s[0] >= ' ' && s[0] != '"'
            && (if s[0] == '\\' then ReadEscape(s[1..]) else Some((s[0], s[1..]))) == Some((c, rest))
  {
    var s := CharText(c) + rest;
    if |CharText(c)| == 1 {
      assert s[1..] == rest;
    } else if |CharText(c)| == 2 {
      assert s[1..][1..] == rest;
    } else {
      var n := c as int;
      assert n / 16 / 16 == 0 && 16 * (n / 16) + n % 16 == n;
      assert s[1..][1..] == CharText(c)[2..] + rest;
      assert s[1..][1..][4..] == rest;
    }
  }

  lemma {:induction false} ReadsChars(s: string, rest: string)
    ensures ReadChars(CharsText(s) + ['"'] + rest) == Some((s, rest))
  {
    if s == "" {
      assert CharsText(s) + ['"'] + rest == ['"'] + rest;
    } else {
      var after := CharsText(s[1..]) + ['"'] + rest;
      assert CharsText(s) + ['"'] + rest == CharText(s[0]) + after;
      ReadsChar(s[0], after);
      ReadsChars(s[1..], rest);
      assert [s[0]] + s[1..] == s;
    }
  }

  lemma {:induction false} ReadsDigits(n: nat, rest: string)
    ensures ReadDigits(CanonicalJson.DigitsText(n) + rest, 0) == ReadDigits(rest, n)
  {
    if n >= 10 {
      var last := [CanonicalJson.DigitChar(n % 10)];
      assert CanonicalJson.DigitsText(n) + rest == CanonicalJson.DigitsText(n / 10) + (last + rest);
      ReadsDigits(n / 10, last + rest);
      assert (last + rest)[1..] == rest;
    } else {
      assert (CanonicalJson.DigitsText(n) + rest)[1..] == rest;
    }
  }

  lemma {:induction false} NoLeadingZero(n: nat)
    ensures CanonicalJson.DigitsText(n)[0] == '0' <==> n == 0
  {
    if n >= 10 {
      NoLeadingZero(n / 10);
    }
  }

  // What may follow a value in printed text.
  predicate Closes(rest: string) {
    rest == "" || rest[0] == ',' || rest[0] == '\n'
  }

  lemma ReadsNat(n: nat, rest: string)
    requires Closes(rest)
    ensures ReadNat(CanonicalJson.DigitsText(n) + rest) == Some((n, rest))
  {
    var s := CanonicalJson.DigitsText(n) + rest;
    NoLeadingZero(n);
    ReadsDigits(n, rest);
    if n == 0 {
      assert s[1..] == rest;
    } else {
      assert s[0] == CanonicalJson.DigitsText(n)[0];
    }
  }

  lemma ReadsInt(n: int, rest: string)
    requires Closes(rest)
    ensures ReadValue(CanonicalJson.IntText(n) + rest) == Some((Int(n), rest))
  {
    if n < 0 {
      var s := "-" + CanonicalJson.DigitsText(-n) + rest;
      assert s[1..] == CanonicalJson.DigitsText(-n) + rest;
      ReadsNat(-n, rest);
    } else {
      ReadsNat(n, rest);
      assert (CanonicalJson.IntText(n) + rest)[0] == CanonicalJson.DigitsText(n)[0];
    }
  }

  lemma ReadsQuoted(s: string, rest: string)
    ensures var t := Quoted(s) + rest;
            t != "" && t[0] == '"' && ReadChars(t[1..]) == Some((s, rest))
  {
    var t := Quoted(s) + rest;
    assert t[1..] == CharsText(s) + ['"'] + rest;
    ReadsChars(s, rest);
  }

  lemma {:induction false} SkipsSpaces(n: nat, rest: string)
    ensures SkipSpace(Spaces(n) + rest) == SkipSpace(rest)
  {
    if n > 0 {
      assert (Spaces(n) + rest)[1..] == Spaces(n - 1) + rest;
      SkipsSpaces(n - 1, rest);
    } else {
      assert Spaces(n) + rest == rest;
    }
  }

  predicate StartsValue(s: string) {
    s != "" && s[0] != ' ' && s[0] != '\t' && s[0] != '\n' && s[0] != '\r'
  }

  lemma SkipsNewLine(level: nat, rest: string)
    requires StartsValue(rest)
    ensures SkipSpace(NewLine(level) + rest) == rest
  {
    assert (NewLine(level) + rest)[1..] == Spaces(2 * level) + rest;
    SkipsSpaces(2 * level, rest);
  }

  // ---- The round trip ----

  // No printed value starts with a space, nor with the bracket that would end its list.
  lemma RenderStarts(v: Json, level: nat)
    ensures var s := Render(v, level); StartsValue(s) && s[0] != ']' && s[0] != '}'
  {
    if v.Int? && v.n >= 0 {
      assert CanonicalJson.IsDigit(CanonicalJson.DigitsText(v.n)[0]);
    }
  }

  lemma {:induction false} PutNew(members: seq<(string, Json)>, k: string, v: Json)
    requires forall i :: 0 <= i < |members| ==> members[i].0 != k
    ensures Put(members, k, v) == members + [(k, v)]
  {
    if members != [] {
      PutNew(members[1..], k, v);
    }
  }

  lemma EntersArr(s: string, level: nat, inner: string)
    requires s == ['['] + NewLine(level) + inner && StartsValue(inner) && inner[0] != ']'
    ensures ReadValue(s) == ReadItems(inner, [])
  {
    assert s[1..] == NewLine(level) + inner;
    SkipsNewLine(level, inner);
  }

  lemma EntersObj(s: string, level: nat, inner: string)
    requires s == ['{'] + NewLine(level) + inner && StartsValue(inner) && inner[0] != '}'
    ensures ReadValue(s) == ReadMembers(inner, [])
  {
    assert s[1..] == NewLine(level) + inner;
    SkipsNewLine(level, inner);
  }

  // The two ways a list goes on after one of its elements.
  lemma AfterElement(after: string, level: nat, next: string, bracket: char, rest: string)
    requires bracket == ']' || bracket == '}'
    ensures after == [','] + NewLine(level) + next && StartsValue(next) ==>
            var t := SkipSpace(after); t != "" && t[0] == ',' && SkipSpace(t[1..]) == next
    ensures after == NewLine(level) + ([bracket] + rest) ==>
            var t := SkipSpace(after); t != "" && t[0] == bracket && t[1..] == rest
  {
    if after == [','] + NewLine(level) + next && StartsValue(next) {
      assert after[1..] == NewLine(level) + next;
      SkipsNewLine(level, next);
    } else if after == NewLine(level) + ([bracket] + rest) {
      SkipsNewLine(level, [bracket] + rest);
      assert ([bracket] + rest)[1..] == rest;
    }
  }

  // What is left to read after the i-th of n elements.
  function AfterText(level: nat, n: nat, i: nat, next: string, bracket: char, rest: string): string
    requires i < n && level > 0
  {
    if i + 1 < n then [','] + NewLine(level) + next else NewLine(level - 1) + ([bracket] + rest)
  }

  lemma UnfoldItems(v: Json, i: nat, level: nat, rest: string)
    requires v.Arr? && i < |v.items| && level > 0
    ensures var next := if i + 1 < |v.items| then RenderItems(v, i + 1, level) + rest else "";
            RenderItems(v, i, level) + rest ==
                Render(v.items[i], level) + AfterText(level, |v.items|, i, next, ']', rest)
  {
  }

  lemma UnfoldMembers(v: Json, i: nat, level: nat, rest: string)
    requires v.Obj? && i < |v.members| && level > 0
    ensures var next := if i + 1 < |v.members| then RenderMembers(v, i + 1, level) + rest else "";
            RenderMembers(v, i, level) + rest ==
            Quoted(v.members[i].0) + (": " + (Render(v.members[i].1, level) +
                                              AfterText(level, |v.members|, i, next, '}', rest)))
  {
  }

  lemma RenderItemsStarts(v: Json, i: nat, level: nat, rest: string)
    requires v.Arr? && i < |v.items| && level > 0
    ensures var s := RenderItems(v, i, level) + rest; StartsValue(s) && s[0] != ']'
  {
    RenderStarts(v.items[i], level);
    assert (RenderItems(v, i, level) + rest)[0] == Render(v.items[i], level)[0];
  }

  lemma {:induction false} ReadsRendered(v: Json, level: nat, rest: string)
    requires WellFormed(v) && Closes(rest)
    ensures ReadValue(Render(v, level) + rest) == Some((v, rest))
    decreases v, 1, 0
  {
    var s := Render(v, level) + rest;
    match v
    case Null => assert s[|"null"|..] == rest;
    case Bool(b) => assert s[if b then |"true"| else |"false"|..] == rest;
    case Int(n) => ReadsInt(n, rest);
    case Str(t) => ReadsQuoted(t, rest);
    case Arr(items) => if items == [] { ReadsEmpty(rest); } else { ReadsArr(v, level, rest); }
    case Obj(members) => if members == [] { ReadsEmpty(rest); } else { ReadsObj(v, level, rest); }
  }

  lemma ReadsEmpty(rest: string)
    ensures ReadValue("[]" + rest) == Some((Arr([]), rest))
    ensures ReadValue("{}" + rest) == Some((Obj([]), rest))
  {
    var s, t := "[]" + rest, "{}" + rest;
    assert s[1..] == [']'] + rest && t[1..] == ['}'] + rest;
    assert s[1..][1..] == rest && t[1..][1..] == rest;
  }

  lemma UnfoldArr(v: Json, level: nat, rest: string)
    requires v.Arr? && v.items != []
    ensures Render(v, level) + rest == ['['] + NewLine(level + 1) + (RenderItems(v, 0, level + 1) + rest)
  {
  }

  lemma {:induction false} ReadsArr(v: Json, level: nat, rest: string)
    requires v.Arr? && WellFormed(v) && v.items != []
    ensures ReadValue(Render(v, level) + rest) == Some((v, rest))
    decreases v, 0, |v.items| + 1
  {
    UnfoldArr(v, level, rest);
    RenderItemsStarts(v, 0, level + 1, rest);
    EntersArr(Render(v, level) + rest, level + 1, RenderItems(v, 0, level + 1) + rest);
    ReadsItems(v, 0, level + 1, rest);
    assert v.items[..0] == [];
  }

  lemma {:induction false} ReadsObj(v: Json, level: nat, rest: string)
    requires v.Obj? && WellFormed(v) && v.members != []
    ensures ReadValue(Render(v, level) + rest) == Some((v, rest))
    decreases v, 0, |v.members| + 1
  {
    EntersObj(Render(v, level) + rest, level + 1, RenderMembers(v, 0, level + 1) + rest);
    ReadsMembers(v, 0, level + 1, rest);
    assert v.members[..0] == [];
  }

  lemma ReadItemsStep(s: string, acc: seq<Json>, x: Json, after: string, level: nat, next: string, rest: string)
    requires ReadValue(s) == Some((x, after))
    ensures after == [','] + NewLine(level) + next && StartsValue(next) ==>
            ReadItems(s, acc) == ReadItems(next, acc + [x])
    ensures after == NewLine(level) + ([']'] + rest) ==> ReadItems(s, acc) == Some((Arr(acc + [x]), rest))
  {
    AfterElement(after, level, next, ']', rest);
  }

  function ItemsFrom(v: Json, i: nat, level: nat, rest: string): string
    requires v.Arr? && level > 0
  {
    if i < |v.items| then RenderItems(v, i, level) + rest else ""
  }

  lemma {:induction false} ReadsItem(v: Json, i: nat, level: nat, rest: string)
    requires v.Arr? && WellFormed(v) && i < |v.items| && level > 0
    ensures ReadValue(ItemsFrom(v, i, level, rest)) ==
            Some((v.items[i], AfterText(level, |v.items|, i, ItemsFrom(v, i + 1, level, rest), ']', rest)))
    decreases v, 0, 0
  {
    UnfoldItems(v, i, level, rest);
    ReadsRendered(v.items[i], level, AfterText(level, |v.items|, i, ItemsFrom(v, i + 1, level, rest), ']', rest));
  }

  lemma {:induction false} ReadsItems(v: Json, i: nat, level: nat, rest: string)
    requires v.Arr? && WellFormed(v) && i < |v.items| && level > 0
    ensures ReadItems(ItemsFrom(v, i, level, rest), v.items[..i]) == Some((v, rest))
    decreases v, 0, |v.items| - i
  {
    ReadsItem(v, i, level, rest);
    if i + 1 < |v.items| {
      RenderItemsStarts(v, i + 1, level, rest);
      ReadsNextItem(v, i, level, ItemsFrom(v, i, level, rest), ItemsFrom(v, i + 1, level, rest));
      ReadsItems(v, i + 1, level, rest);
    } else {
      ReadsLastItem(v, ItemsFrom(v, i, level, rest), level, NewLine(level - 1) + ([']'] + rest), rest);
    }
  }

  lemma ReadsNextItem(v: Json, i: nat, level: nat, s: string, next: string)
    requires v.Arr? && i < |v.items| && StartsValue(next)
    requires ReadValue(s) == Some((v.items[i], [','] + NewLine(level) + next))
    ensures ReadItems(s, v.items[..i]) == ReadItems(next, v.items[..i + 1])
  {
    ReadItemsStep(s, v.items[..i], v.items[i], [','] + NewLine(level) + next, level, next, "");
    assert v.items[..i] + [v.items[i]] == v.items[..i + 1];
  }

  lemma ReadsLastItem(v: Json, s: string, level: nat, after: string, rest: string)
    requires v.Arr? && v.items != [] && level > 0 && after == NewLine(level - 1) + ([']'] + rest)
    requires ReadValue(s) == Some((v.items[|v.items| - 1], after))
    ensures ReadItems(s, v.items[..|v.items| - 1]) == Some((v, rest))
  {
    var n := |v.items| - 1;
    ReadItemsStep(s, v.items[..n], v.items[n], after, level - 1, "", rest);
    assert v.items[..n] + [v.items[n]] == v.items;
  }

  lemma {:induction false} ReadsMember(k: string, v: Json, level: nat, after: string)
    requires WellFormed(v) && Closes(after)
    ensures ReadMember(Quoted(k) + (": " + (Render(v, level) + after))) == Some(((k, v), after))
    decreases v, 2, 0
  {
    var value := Render(v, level) + after;
    var t := ": " + value;
    ReadsQuoted(k, t);
    assert t[0] == ':' && SkipSpace(t) == t;
    assert t[1..] == [' '] + value;
    assert ([' '] + value)[1..] == value;
    RenderStarts(v, level);
    assert value[0] == Render(v, level)[0];
    assert SkipSpace(t[1..]) == SkipSpace(value) == value;
    ReadsRendered(v, level, after);
  }

  lemma PutNext(v: Json, i: nat)
    requires v.Obj? && WellFormed(v) && i < |v.members|
    ensures Put(v.members[..i], v.members[i].0, v.members[i].1) == v.members[..i + 1]
  {
    PutNew(v.members[..i], v.members[i].0, v.members[i].1);
    assert v.members[..i] + [v.members[i]] == v.members[..i + 1];
  }

  lemma ReadMembersStep(s: string, acc: seq<(string, Json)>, m: (string, Json), after: string, level: nat, next: string,
                        rest: string)
    requires ReadMember(s) == Some((m, after))
    ensures after == [','] + NewLine(level) + next && StartsValue(next) ==>
            ReadMembers(s, acc) == ReadMembers(next, Put(acc, m.0, m.1))
    ensures after == NewLine(level) + (['}'] + rest) ==>
            ReadMembers(s, acc) == Some((Obj(Put(acc, m.0, m.1)), rest))
  {
    AfterElement(after, level, next, '}', rest);
  }

  lemma {:induction false} ReadsMembers(v: Json, i: nat, level: nat, rest: string)
    requires v.Obj? && WellFormed(v) && i < |v.members| && level > 0
    ensures ReadMembers(RenderMembers(v, i, level) + rest, v.members[..i]) == Some((v, rest))
    decreases v, 0, |v.members| - i
  {
    var more := i + 1 < |v.members|;
    var next := if more then RenderMembers(v, i + 1, level) + rest else "";
    var after := AfterText(level, |v.members|, i, next, '}', rest);
    var k, x := v.members[i].0, v.members[i].1;
    UnfoldMembers(v, i, level, rest);
    ReadsMember(k, x, level, after);
    PutNext(v, i);
    ReadMembersStep(RenderMembers(v, i, level) + rest, v.members[..i], (k, x), after,
                    if more then level else level - 1, next, rest);
    if more {
      ReadsMembers(v, i + 1, level, rest);
    } else {
      assert v.members[..i + 1] == v.members;
    }
  }

  // Printing loses nothing: every document parses back to itself, members in order.
  lemma LoadsDump(v: Json)
    requires WellFormed(v)
    ensures Load(Dump(v)) == Some(v)
  {
    RenderStarts(v, 0);
    ReadsRendered(v, 0, "");
    assert Dump(v) + "" == Dump(v);
  }
}
