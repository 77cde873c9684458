// json.dumps(fields, sort_keys=True, separators=(",", ":")) for an object whose members are
// null, integers and strings, with Python's default ensure_ascii escaping. The point of the
// module is that the text determines the object: no two member lists print alike.
module CanonicalJson {

  datatype Scalar = Null | Number(n: int) | Text(s: string)

  type Member = (string, Scalar)

  // ---- Printing ----

  function HexDigit(d: int): char
    requires 0 <= d < 16
  {
    if d < 10 then ('0' as int + d) as char else ('a' as int + d - 10) as char
  }

  // \uXXXX for one UTF-16 code unit.
  function UnitText(u: int): string
    requires 0 <= u < 0x1_0000
  {
    ['\\', 'u', HexDigit(u / 16 / 16 / 16), HexDigit(u / 16 / 16 % 16), HexDigit(u / 16 % 16), HexDigit(u % 16)]
  }

  function CharText(c: char): (r: string)
    ensures |r| > 0 && r[0] != '"'
  {
    if c == '"' then ['\\', '"']
    else if c == '\\' then ['\\', '\\']
    else if c == '\n' then ['\\', 'n']
    else if c == '\r' then ['\\', 'r']
    else if c == '\t' then ['\\', 't']
    else if c == '\U{0008}' then ['\\', 'b']
    else if c == '\U{000C}' then ['\\', 'f']
    else if ' ' <= c <= '~' then [c]
    else
      var n := c as int;
      if n < 0x1_0000 then UnitText(n)
      else UnitText(0xD800 + (n - 0x1_0000) / 0x400) + UnitText(0xDC00 + (n - 0x1_0000) % 0x400)
  }

  function CharsText(s: string): string {
    if s == "" then "" else CharText(s[0]) + CharsText(s[1..])
  }

  function DigitChar(d: int): char
    requires 0 <= d < 10
  {
    ('0' as int + d) as char
  }

  predicate IsDigit(c: char) { '0' <= c <= '9' }

  function DigitsText(n: nat): (r: string)
    ensures |r| > 0 && forall i :: 0 <= i < |r| ==> IsDigit(r[i])
  {
    if n < 10 then [DigitChar(n)] else DigitsText(n / 10) + [DigitChar(n % 10)]
  }

  function IntText(n: int): string {
    if n < 0 then "-" + DigitsText(-n) else DigitsText(n)
  }

  function ScalarText(v: Scalar): string {
    match v
    case Null => "null"
    case Number(n) => IntText(n)
    case Text(s) => ['"'] + CharsText(s) + ['"']
  }

  function MemberText(m: Member): string {
    ScalarText(Text(m.0)) + [':'] + ScalarText(m.1)
  }

  function MembersText(ms: seq<Member>): string {
    if ms == [] then "}"
    else MemberText(ms[0]) + (if |ms| == 1 then "}" else [','] + MembersText(ms[1..]))
  }

  function ObjectText(ms: seq<Member>): string {
    ['{'] + MembersText(ms)
  }

  // ---- Injectivity ----

  // The printed object determines its member list, names, order and values included.
  lemma ObjectInjective(ms: seq<Member>, ns: seq<Member>)
    requires ObjectText(ms) == ObjectText(ns)
    ensures ms == ns
  {
    Cut(['{'], ['{'], MembersText(ms), MembersText(ns));
    MembersInjective(ms, ns);
  }

  lemma Cut(p: string, q: string, a: string, b: string)
    requires p + a == q + b && |p| == |q|
    ensures p == q && a == b
  {
    assert p == (p + a)[..|p|] == (q + b)[..|q|] == q;
    assert a == (p + a)[|p|..] == (q + b)[|q|..] == b;
  }

  lemma Assoc(p: string, q: string, r: string)
    ensures p + q + r == p + (q + r)
  {
  }

  lemma UnitInjective(u: int, v: int)
    requires 0 <= u < 0x1_0000 && 0 <= v < 0x1_0000
    requires UnitText(u) == UnitText(v)
    ensures u == v
  {
    var s, t := UnitText(u), UnitText(v);
    HexInjective(u / 16 / 16 / 16, v / 16 / 16 / 16, s[2], t[2]);
    HexInjective(u / 16 / 16 % 16, v / 16 / 16 % 16, s[3], t[3]);
    HexInjective(u / 16 % 16, v / 16 % 16, s[4], t[4]);
    HexInjective(u % 16, v % 16, s[5], t[5]);
  }

  lemma HexInjective(d: int, e: int, c: char, k: char)
    requires 0 <= d < 16 && 0 <= e < 16 && HexDigit(d) == c == k == HexDigit(e)
    ensures d == e
  {
  }

  // The first UTF-16 unit of a \u-escaped character; a surrogate exactly for astral ones.
  function LeadUnit(c: char): (u: int)
    ensures 0 <= u < 0x1_0000
    ensures 0xD800 <= u < 0xE000 <==> c as int >= 0x1_0000
  {
    var n := c as int;
    if n < 0x1_0000 then n else 0xD800 + (n - 0x1_0000) / 0x400
  }

  function TailUnit(c: char): (u: int)
    requires c as int >= 0x1_0000
    ensures 0 <= u < 0x1_0000
  {
    0xDC00 + (c as int - 0x1_0000) % 0x400
  }

  predicate UnicodeEscaped(c: char) { |CharText(c)| > 2 }

  function TailText(c: char): string {
    if c as int < 0x1_0000 then "" else UnitText(TailUnit(c))
  }

  lemma UnicodeText(c: char)
    requires UnicodeEscaped(c)
    ensures CharText(c) == UnitText(LeadUnit(c)) + TailText(c)
  {
  }

  lemma UnitSplit(u: int, v: int, a: string, b: string)
    requires 0 <= u < 0x1_0000 && 0 <= v < 0x1_0000
    requires UnitText(u) + a == UnitText(v) + b
    ensures u == v && a == b
  {
    Cut(UnitText(u), UnitText(v), a, b);
    UnitInjective(u, v);
  }

  lemma UnitsDetermine(c: char, d: char)
    requires LeadUnit(c) == LeadUnit(d)
    requires c as int >= 0x1_0000 && d as int >= 0x1_0000 ==> TailUnit(c) == TailUnit(d)
    ensures c == d
  {
  }

  lemma UnicodeSplit(c: char, d: char, a: string, b: string)
    requires UnicodeEscaped(c) && UnicodeEscaped(d)
    requires CharText(c) + a == CharText(d) + b
    ensures c == d
  {
    UnicodeText(c);
    UnicodeText(d);
    UnicodeUnits(c, d, a, b);
  }

  lemma UnicodeUnits(c: char, d: char, a: string, b: string)
    requires UnitText(LeadUnit(c)) + TailText(c) + a == UnitText(LeadUnit(d)) + TailText(d) + b
    ensures c == d
  {
    Assoc(UnitText(LeadUnit(c)), TailText(c), a);
    Assoc(UnitText(LeadUnit(d)), TailText(d), b);
    UnitSplit(LeadUnit(c), LeadUnit(d), TailText(c) + a, TailText(d) + b);
    if c as int >= 0x1_0000 && d as int >= 0x1_0000 {
      UnitSplit(TailUnit(c), TailUnit(d), a, b);
    }
    UnitsDetermine(c, d);
  }

  // A printed character can be read off the front of any text: no printed character is a
  // prefix of a different one.
  lemma CharSplit(c: char, d: char, a: string, b: string)
    requires CharText(c) + a == CharText(d) + b
    ensures c == d && a == b
  {
    var l, r := CharText(c) + a, CharText(d) + b;
    assert l[0] == CharText(c)[0] && r[0] == CharText(d)[0];
    assert |CharText(c)| > 1 <==> CharText(c)[0] == '\\';
    assert |CharText(d)| > 1 <==> CharText(d)[0] == '\\';
    if |CharText(c)| > 1 {
      assert l[1] == CharText(c)[1] && r[1] == CharText(d)[1];
      assert UnicodeEscaped(c) <==> CharText(c)[1] == 'u';
      assert UnicodeEscaped(d) <==> CharText(d)[1] == 'u';
      if UnicodeEscaped(c) {
        UnicodeSplit(c, d, a, b);
      }
    }
    Cut(CharText(c), CharText(d), a, b);
  }

  // ... and a whole printed string can, because the closing quote starts no character.
  lemma {:induction false} CharsSplit(s: string, t: string, a: string, b: string)
    requires CharsText(s) + (['"'] + a) == CharsText(t) + (['"'] + b)
    ensures s == t && a == b
    decreases |s| + |t|
  {
    var l, r := CharsText(s) + (['"'] + a), CharsText(t) + (['"'] + b);
    assert l[0] == if s == "" then '"' else CharText(s[0])[0];
    assert r[0] == if t == "" then '"' else CharText(t[0])[0];
    if s == "" {
      assert l == ['"'] + a && r == ['"'] + b;
      Cut(['"'], ['"'], a, b);
    } else {
      var a', b' := CharsText(s[1..]) + (['"'] + a), CharsText(t[1..]) + (['"'] + b);
      Assoc(CharText(s[0]), CharsText(s[1..]), ['"'] + a);
      Assoc(CharText(t[0]), CharsText(t[1..]), ['"'] + b);
      CharSplit(s[0], t[0], a', b');
      CharsSplit(s[1..], t[1..], a, b);
      assert s == [s[0]] + s[1..] && t == [t[0]] + t[1..];
    }
  }

  lemma {:induction false} DigitsInjective(n: nat, m: nat)
    requires DigitsText(n) == DigitsText(m)
    ensures n == m
  {
    var l, r := DigitsText(n), DigitsText(m);
    assert l[|l| - 1] == DigitChar(n % 10) && r[|r| - 1] == DigitChar(m % 10);
    assert n >= 10 <==> |l| > 1;
    assert m >= 10 <==> |r| > 1;
    if n >= 10 {
      Cut(DigitsText(n / 10), DigitsText(m / 10), [DigitChar(n % 10)], [DigitChar(m % 10)]);
      DigitsInjective(n / 10, m / 10);
    }
  }

  predicate Delimited(a: string) {
    |a| > 0 && (a[0] == ',' || a[0] == '}')
  }

  // A text of digits (or with a minus sign in front) ends where the delimiter is.
  lemma DelimitedCut(p: string, q: string, a: string, b: string)
    requires p + a == q + b && Delimited(a) && Delimited(b)
    requires forall i :: 0 <= i < |p| ==> p[i] != ',' && p[i] != '}'
    requires forall i :: 0 <= i < |q| ==> q[i] != ',' && q[i] != '}'
    ensures p == q && a == b
  {
    var l, r := p + a, q + b;
    assert l[|p|] == a[0] && r[|q|] == b[0];
    assert forall i :: 0 <= i < |p| ==> l[i] == p[i];
    assert forall i :: 0 <= i < |q| ==> r[i] == q[i];
    Cut(p, q, a, b);
  }

  lemma IntInjective(n: int, m: int)
    requires IntText(n) == IntText(m)
    ensures n == m
  {
    assert n < 0 <==> IntText(n)[0] == '-';
    assert m < 0 <==> IntText(m)[0] == '-';
    if n < 0 {
      Cut("-", "-", DigitsText(-n), DigitsText(-m));
      DigitsInjective(-n, -m);
    } else {
      DigitsInjective(n, m);
    }
  }

  lemma ScalarSplit(v: Scalar, w: Scalar, a: string, b: string)
    requires Delimited(a) && Delimited(b)
    requires ScalarText(v) + a == ScalarText(w) + b
    ensures v == w && a == b
  {
    assert ScalarText(v)[0] == (ScalarText(v) + a)[0] == (ScalarText(w) + b)[0] == ScalarText(w)[0];
    assert v.Text? <==> ScalarText(v)[0] == '"';
    assert w.Text? <==> ScalarText(w)[0] == '"';
    if v.Text? {
      TextSplit(v.s, w.s, a, b);
    } else {
      DelimitedCut(ScalarText(v), ScalarText(w), a, b);
      assert v.Null? <==> ScalarText(v)[0] == 'n';
      assert w.Null? <==> ScalarText(w)[0] == 'n';
      if v.Number? {
        IntInjective(v.n, w.n);
      }
    }
  }

  lemma TextSplit(s: string, t: string, a: string, b: string)
    requires ScalarText(Text(s)) + a == ScalarText(Text(t)) + b
    ensures s == t && a == b
  {
    QuotedText(s, a);
    QuotedText(t, b);
    Cut(['"'], ['"'], CharsText(s) + (['"'] + a), CharsText(t) + (['"'] + b));
    CharsSplit(s, t, a, b);
  }

  lemma QuotedText(s: string, a: string)
    ensures ScalarText(Text(s)) + a == ['"'] + (CharsText(s) + (['"'] + a))
  {
    var q := ['"'];
    Assoc(q + CharsText(s), q, a);
    Assoc(q, CharsText(s), q + a);
  }

  lemma MemberSplit(m: Member, n: Member, a: string, b: string)
    requires Delimited(a) && Delimited(b)
    requires MemberText(m) + a == MemberText(n) + b
    ensures m == n && a == b
  {
    NamedText(m, a);
    NamedText(n, b);
    TextSplit(m.0, n.0, [':'] + (ScalarText(m.1) + a), [':'] + (ScalarText(n.1) + b));
    Cut([':'], [':'], ScalarText(m.1) + a, ScalarText(n.1) + b);
    ScalarSplit(m.1, n.1, a, b);
  }

  lemma NamedText(m: Member, a: string)
    ensures MemberText(m) + a == ScalarText(Text(m.0)) + ([':'] + (ScalarText(m.1) + a))
  {
    Assoc(ScalarText(Text(m.0)) + [':'], ScalarText(m.1), a);
    Assoc(ScalarText(Text(m.0)), [':'], ScalarText(m.1) + a);
  }

  function AfterMember(ms: seq<Member>): (r: string)
    requires ms != []
    ensures Delimited(r)
  {
    if |ms| == 1 then "}" else [','] + MembersText(ms[1..])
  }

  lemma MembersTextStarts(ms: seq<Member>)
    ensures ms == [] <==> MembersText(ms)[0] == '}'
    ensures ms != [] ==> MembersText(ms) == MemberText(ms[0]) + AfterMember(ms)
    ensures ms != [] ==> (|ms| == 1 <==> AfterMember(ms)[0] == '}')
  {
  }

  lemma HeadsAgree(ms: seq<Member>, ns: seq<Member>)
    requires ms != [] && MembersText(ms) == MembersText(ns)
    ensures ns != [] && ms[0] == ns[0] && AfterMember(ms) == AfterMember(ns)
    ensures |ms| == 1 <==> |ns| == 1
  {
    MembersTextStarts(ms);
    MembersTextStarts(ns);
    MemberSplit(ms[0], ns[0], AfterMember(ms), AfterMember(ns));
  }

  lemma SameParts(ms: seq<Member>, ns: seq<Member>)
    requires ms != [] && ns != [] && ms[0] == ns[0] && ms[1..] == ns[1..]
    ensures ms == ns
  {
    assert ms == [ms[0]] + ms[1..] && ns == [ns[0]] + ns[1..];
  }

  lemma {:induction false} MembersInjective(ms: seq<Member>, ns: seq<Member>)
    requires MembersText(ms) == MembersText(ns)
    ensures ms == ns
  {
    if ms == [] {
      MembersTextStarts(ns);
    } else {
      HeadsAgree(ms, ns);
      if |ms| > 1 {
        TailsAgree(ms, ns);
        MembersInjective(ms[1..], ns[1..]);
      }
      SameParts(ms, ns);
    }
  }

  lemma TailsAgree(ms: seq<Member>, ns: seq<Member>)
    requires |ms| > 1 && |ns| > 1 && AfterMember(ms) == AfterMember(ns)
    ensures MembersText(ms[1..]) == MembersText(ns[1..])
  {
    Cut([','], [','], MembersText(ms[1..]), MembersText(ns[1..]));
  }
}
