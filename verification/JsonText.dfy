/**
 `JSON.stringify` on the values that a dictionary query holds, and the unique decodability of
 its output (RFC 8259, sections 4, 5 and 7). Every printer takes the text that follows, so
 that "what was printed, and what followed, are determined by the text" is one equation.
 */
module JsonText {
  import opened Options
  import opened NestedObject

  /** A query condition; an undefined value is a property that the output leaves out. */
  datatype Condition = Condition(field: string, value: Option<Tree>, matcher: string)

  // ----- printing

  function HexDigit(d: nat): char
    requires d < 16
  {
    if d < 10 then ('0' as int + d) as char else ('a' as int + d - 10) as char
  }

  function EscapeChar(c: char): (text: string)
    ensures text != ""
  {
    if c == '\"' then "\\\""
    else if c == '\\' then "\\\\"
    else if c as int == 8 then "\\b"
    else if c as int == 9 then "\\t"
    else if c as int == 10 then "\\n"
    else if c as int == 12 then "\\f"
    else if c as int == 13 then "\\r"
    else if c as int < 32 then "\\u00" + [HexDigit(c as int / 16), HexDigit(c as int % 16)]
    else [c]
  }

  function Escaped(s: string, rest: string): string {
    if s == "" then rest else EscapeChar(s[0]) + Escaped(s[1..], rest)
  }

  function Quoted(s: string, rest: string): string {
    "\"" + Escaped(s, "\"" + rest)
  }

  function TreeText(t: Tree, rest: string): string
    decreases t, 0
  {
    match t
    case Leaf(text) => Quoted(text, rest)
    case Branch(entries) => "{" + MembersText(entries, "}" + rest)
  }

  function MembersText(entries: seq<(string, Tree)>, rest: string): string
    decreases entries, 1
  {
    if entries == [] then rest
    else
      assert entries[0].1 < entries[0];
      Quoted(entries[0].0, ":" + TreeText(entries[0].1,
        if |entries| == 1 then rest else "," + MembersText(entries[1..], rest)))
  }

  function MatcherText(c: Condition, rest: string): string {
    ",\"matcher\":" + Quoted(c.matcher, "}" + rest)
  }

  function AfterField(c: Condition, rest: string): string {
    match c.value
    case Some(t) => ",\"value\":" + TreeText(t, MatcherText(c, rest))
    case None => MatcherText(c, rest)
  }

  function ConditionText(c: Condition, rest: string): string {
    "{\"field\":" + Quoted(c.field, AfterField(c, rest))
  }

  function ConditionsText(cs: seq<Condition>, rest: string): string {
    if cs == [] then rest
    else if |cs| == 1 then ConditionText(cs[0], rest)
    else ConditionText(cs[0], "," + ConditionsText(cs[1..], rest))
  }

  /** `JSON.stringify(conditions)` */
  function Stringify(cs: seq<Condition>): string {
    "[" + ConditionsText(cs, "]")
  }

  // ----- unique decodability

  lemma CancelPrefix(p: string, u: string, v: string)
    requires p + u == p + v
    ensures u == v
  {
    assert (p + u)[|p|..] == u && (p + v)[|p|..] == v;
  }

  function HexValue(h: char): nat {
    if '0' <= h <= '9' then h as int - '0' as int
    else if 'a' <= h <= 'f' then h as int - 'a' as int + 10
    else 0
  }

  /** The character that an escaped text starts with. */
  function FirstChar(text: string): char
    requires text != ""
  {
    if text[0] != '\\' || |text| < 2 then text[0]
    else
      match text[1]
      case 'b' => 8 as char
      case 't' => 9 as char
      case 'n' => 10 as char
      case 'f' => 12 as char
      case 'r' => 13 as char
      case 'u' => if |text| < 6 then 'u' else (HexValue(text[4]) * 16 + HexValue(text[5])) as char
      case c => c
  }

  lemma FirstCharOfEscape(c: char, rest: string)
    ensures FirstChar(EscapeChar(c) + rest) == c
  {}

  lemma EscapeCharDecodable(c: char, d: char, u: string, v: string)
    requires EscapeChar(c) + u == EscapeChar(d) + v
    ensures c == d && u == v
  {
    FirstCharOfEscape(c, u);
    FirstCharOfEscape(d, v);
    CancelPrefix(EscapeChar(c), u, v);
  }

  /** No escape starts with the quotation mark, so the first one met closes the string. */
  lemma EscapedStart(s: string, rest: string)
    ensures Escaped(s, "\"" + rest) != "" && (Escaped(s, "\"" + rest)[0] == '\"' <==> s == "")
  {}

  lemma {:induction false} EscapedDecodable(s: string, t: string, x: string, y: string)
    requires Escaped(s, "\"" + x) == Escaped(t, "\"" + y)
    ensures s == t && x == y
  {
    EscapedStart(s, x);
    EscapedStart(t, y);
    if s == "" || t == "" {
      assert s == "" && t == "";
      CancelPrefix("\"", x, y);
    } else {
      EscapeCharDecodable(s[0], t[0], Escaped(s[1..], "\"" + x), Escaped(t[1..], "\"" + y));
      EscapedDecodable(s[1..], t[1..], x, y);
      assert s == [s[0]] + s[1..] && t == [t[0]] + t[1..];
    }
  }

  lemma QuotedDecodable(s: string, t: string, x: string, y: string)
    requires Quoted(s, x) == Quoted(t, y)
    ensures s == t && x == y
  {
    CancelPrefix("\"", Escaped(s, "\"" + x), Escaped(t, "\"" + y));
    EscapedDecodable(s, t, x, y);
  }

  lemma {:induction false} TreeDecodable(s: Tree, t: Tree, x: string, y: string)
    requires TreeText(s, x) == TreeText(t, y)
    ensures s == t && x == y
    decreases s, 0
  {
    assert TreeText(s, x)[0] == if s.Leaf? then '\"' else '{';
    assert TreeText(t, y)[0] == if t.Leaf? then '\"' else '{';
    match s {
      case Leaf(text) => QuotedDecodable(text, t.text, x, y);
      case Branch(entries) =>
        CancelPrefix("{", MembersText(entries, "}" + x), MembersText(t.entries, "}" + y));
        MembersDecodable(entries, t.entries, x, y);
    }
  }

  /** What follows the first member of an object. */
  function AfterMember(entries: seq<(string, Tree)>, x: string): string
    requires entries != []
  {
    if |entries| == 1 then "}" + x else "," + MembersText(entries[1..], "}" + x)
  }

  lemma {:induction false} MembersDecodable(a: seq<(string, Tree)>, b: seq<(string, Tree)>, x: string, y: string)
    requires MembersText(a, "}" + x) == MembersText(b, "}" + y)
    ensures a == b && x == y
    decreases a, 1
  {
    assert a != [] ==> MembersText(a, "}" + x)[0] == '\"';
    assert b != [] ==> MembersText(b, "}" + y)[0] == '\"';
    if a == [] {
      CancelPrefix("}", x, y);
    } else {
      var u, v := AfterMember(a, x), AfterMember(b, y);
      QuotedDecodable(a[0].0, b[0].0, ":" + TreeText(a[0].1, u), ":" + TreeText(b[0].1, v));
      assert a[0].1 < a[0];
      CancelPrefix(":", TreeText(a[0].1, u), TreeText(b[0].1, v));
      TreeDecodable(a[0].1, b[0].1, u, v);
      assert u[0] == (if |a| == 1 then '}' else ',') && v[0] == if |b| == 1 then '}' else ',';
      if |a| == 1 {
        CancelPrefix("}", x, y);
      } else {
        CancelPrefix(",", MembersText(a[1..], "}" + x), MembersText(b[1..], "}" + y));
        MembersDecodable(a[1..], b[1..], x, y);
      }
      assert a == [a[0]] + a[1..] && b == [b[0]] + b[1..];
    }
  }

  lemma ConditionDecodable(c: Condition, d: Condition, x: string, y: string)
    requires ConditionText(c, x) == ConditionText(d, y)
    ensures c == d && x == y
  {
    CancelPrefix("{\"field\":", Quoted(c.field, AfterField(c, x)), Quoted(d.field, AfterField(d, y)));
    QuotedDecodable(c.field, d.field, AfterField(c, x), AfterField(d, y));
    assert AfterField(c, x)[2] == if c.value.Some? then 'v' else 'm';
    assert AfterField(d, y)[2] == if d.value.Some? then 'v' else 'm';
    if c.value.Some? {
      CancelPrefix(",\"value\":",
                   TreeText(c.value.value, MatcherText(c, x)), TreeText(d.value.value, MatcherText(d, y)));
      TreeDecodable(c.value.value, d.value.value, MatcherText(c, x), MatcherText(d, y));
    }
    CancelPrefix(",\"matcher\":", Quoted(c.matcher, "}" + x), Quoted(d.matcher, "}" + y));
    QuotedDecodable(c.matcher, d.matcher, "}" + x, "}" + y);
    CancelPrefix("}", x, y);
  }

  lemma ConditionsStart(cs: seq<Condition>)
    ensures ConditionsText(cs, "]") != "" && ConditionsText(cs, "]")[0] == if cs == [] then ']' else '{'
  {}

  function AfterCondition(cs: seq<Condition>): (text: string)
    requires cs != []
    ensures text != "" && text[0] == if |cs| == 1 then ']' else ','
  {
    if |cs| == 1 then "]" else "," + ConditionsText(cs[1..], "]")
  }

  lemma HeadDecodable(a: seq<Condition>, b: seq<Condition>)
    requires a != [] && b != []
    requires ConditionsText(a, "]") == ConditionsText(b, "]")
    ensures a[0] == b[0] && AfterCondition(a) == AfterCondition(b)
  {
    assert ConditionsText(a, "]") == ConditionText(a[0], AfterCondition(a));
    assert ConditionsText(b, "]") == ConditionText(b[0], AfterCondition(b));
    ConditionDecodable(a[0], b[0], AfterCondition(a), AfterCondition(b));
  }

  lemma {:induction false} ConditionsDecodable(a: seq<Condition>, b: seq<Condition>)
    requires ConditionsText(a, "]") == ConditionsText(b, "]")
    ensures a == b
  {
    ConditionsStart(a);
    ConditionsStart(b);
    if a != [] {
      HeadDecodable(a, b);
      if |a| > 1 {
        CancelPrefix(",", ConditionsText(a[1..], "]"), ConditionsText(b[1..], "]"));
        ConditionsDecodable(a[1..], b[1..]);
        assert a == [a[0]] + a[1..] && b == [b[0]] + b[1..];
      }
    }
  }

  /** Two condition lists with the same JSON text are the same list. */
  lemma StringifyInjective(a: seq<Condition>, b: seq<Condition>)
    requires Stringify(a) == Stringify(b)
    ensures a == b
  {
    CancelPrefix("[", ConditionsText(a, "]"), ConditionsText(b, "]"));
    ConditionsDecodable(a, b);
  }
}
