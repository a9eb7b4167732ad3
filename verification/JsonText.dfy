/** JSON texts as RFC 8259 sections 2 and 7 write them, with every choice of insignificant
    whitespace, and how the scanners of json.rs see them. */
module JsonText {
  import opened JsonScan

  datatype StrItem = Plain(c: char) | Short(c: char) | Unicode(hex: string)

  /** A value together with its layout; `Literal` covers numbers, `true`, `false` and `null`. */
  datatype Json =
    | Literal(text: string)
    | Str(items: seq<StrItem>)
    | Arr(open: string, elems: Elems)
    | Obj(open: string, members: Members)

  datatype Elems =
    | NoElems
    | Elem(before: string, value: Json, after: string, rest: Elems)

  datatype Members =
    | NoMembers
    | Member(before: string, key: seq<StrItem>, colon: string, gap: string, value: Json, after: string, rest: Members)

  predicate IsWs(s: string) {
    forall i :: 0 <= i < |s| ==> s[i] == ' ' || s[i] == '\t' || s[i] == '\n' || s[i] == '\r'
  }

  predicate IsLiteralChar(c: char) {
    'a' <= c <= 'z' || '0' <= c <= '9' || c == '+' || c == '-' || c == '.' || c == 'E'
  }

  /** Holds of every number and of the three literal names. */
  predicate IsLiteral(t: string) {
    t != "" && forall i :: 0 <= i < |t| ==> IsLiteralChar(t[i])
  }

  predicate IsHex(c: char) {
    '0' <= c <= '9' || 'a' <= c <= 'f' || 'A' <= c <= 'F'
  }

  predicate ValidItem(item: StrItem) {
    match item
    case Plain(c) => c != '"' && c != '\\' && c > '\U{1f}'
    case Short(c) => c == '"' || c == '\\' || c == '/' || c == 'b' || c == 'f' || c == 'n' || c == 'r' || c == 't'
    case Unicode(hex) => |hex| == 4 && forall i :: 0 <= i < 4 ==> IsHex(hex[i])
  }

  predicate ValidItems(items: seq<StrItem>) {
    forall i :: 0 <= i < |items| ==> ValidItem(items[i])
  }

  predicate Valid(v: Json) {
    match v
    case Literal(text) => IsLiteral(text)
    case Str(items) => ValidItems(items)
    case Arr(open, elems) => IsWs(open) && ValidElems(elems)
    case Obj(open, members) => IsWs(open) && ValidMembers(members)
  }

  predicate ValidElems(es: Elems) {
    es.NoElems? || (IsWs(es.before) && Valid(es.value) && IsWs(es.after) && ValidElems(es.rest))
  }

  predicate ValidMembers(ms: Members) {
    ms.NoMembers?
    || (IsWs(ms.before) && ValidItems(ms.key) && IsWs(ms.colon) && IsWs(ms.gap)
        && Valid(ms.value) && IsWs(ms.after) && ValidMembers(ms.rest))
  }

  function PrintItem(item: StrItem): string {
    match item
    case Plain(c) => [c]
    case Short(c) => ['\\', c]
    case Unicode(hex) => "\\u" + hex
  }

  function PrintItems(items: seq<StrItem>): string {
    if items == [] then "" else PrintItem(items[0]) + PrintItems(items[1..])
  }

  function PrintStr(items: seq<StrItem>): string {
    "\"" + (PrintItems(items) + "\"")
  }

  function Print(v: Json): string {
    match v
    case Literal(text) => text
    case Str(items) => PrintStr(items)
    case Arr(open, elems) => ['['] + (open + PrintElems(elems)) + [']']
    case Obj(open, members) => ['{'] + (open + PrintMembers(members)) + ['}']
  }

  function PrintElems(es: Elems): string {
    match es
    case NoElems => ""
    case Elem(before, value, after, rest) =>
      before + Print(value) + after + (if rest.NoElems? then "" else "," + PrintElems(rest))
  }

  function PrintMembers(ms: Members): string {
    match ms
    case NoMembers => ""
    case Member(before, key, colon, gap, value, after, rest) =>
      before + PrintStr(key) + (colon + ":" + gap) + Print(value) + after
      + (if rest.NoMembers? then "" else "," + PrintMembers(rest))
  }

  predicate IsContainer(v: Json) {
    v.Arr? || v.Obj?
  }

  // ---------- level texts: scanned without touching the brackets already open ----------

  function Outside(base: seq<char>): Scan {
    Scan(false, false, base)
  }

  /** Scanned with `base` open, `t` ends where it started, mismatches nothing and never closes
      a bracket of `base`. */
  ghost predicate Level(base: seq<char>, t: string) {
    && Matched(Outside(base), t)
    && Run(Outside(base), t) == Outside(base)
    && forall k :: 0 <= k <= |t| ==> base <= Run(Outside(base), t[..k]).closers
  }

  lemma {:induction false} LevelAppend(base: seq<char>, a: string, b: string)
    requires Level(base, a) && Level(base, b)
    ensures Level(base, a + b)
  {
    RunAppend(Outside(base), a, b);
    forall k | 0 <= k <= |a + b| ensures base <= Run(Outside(base), (a + b)[..k]).closers {
      if k <= |a| {
        assert (a + b)[..k] == a[..k];
      } else {
        assert (a + b)[..k] == a + b[..k - |a|];
        RunAppend(Outside(base), a, b[..k - |a|]);
      }
    }
  }

  lemma {:induction false} LevelPlain(base: seq<char>, t: string)
    requires forall i :: 0 <= i < |t| ==> IsPlain(t[i])
    ensures Level(base, t)
  {
    PlainRun(Outside(base), t);
    forall k | 0 <= k <= |t| ensures base <= Run(Outside(base), t[..k]).closers {
      PlainRun(Outside(base), t[..k]);
    }
  }

  /** Inside a string literal every prefix of the items stays inside it. */
  lemma {:induction false} ItemsStayInside(s: Scan, items: seq<StrItem>, k: nat)
    requires s.inString && !s.escaped && ValidItems(items) && k <= |PrintItems(items)|
    ensures Run(s, PrintItems(items)) == s && Matched(s, PrintItems(items))
    ensures Run(s, PrintItems(items)[..k]).closers == s.closers
    decreases |items|
  {
    if items != [] {
      var first, rest := PrintItem(items[0]), PrintItems(items[1..]);
      ItemStaysInside(s, items[0], if k <= |first| then k else 0);
      RunAppend(s, first, rest);
      if k <= |first| {
        assert (first + rest)[..k] == first[..k];
        ItemsStayInside(s, items[1..], 0);
      } else {
        assert (first + rest)[..k] == first + rest[..k - |first|];
        RunAppend(s, first, rest[..k - |first|]);
        ItemsStayInside(s, items[1..], k - |first|);
      }
    }
  }

  lemma {:induction false} ItemStaysInside(s: Scan, item: StrItem, k: nat)
    requires s.inString && !s.escaped && ValidItem(item) && k <= |PrintItem(item)|
    ensures Run(s, PrintItem(item)) == s && Matched(s, PrintItem(item))
    ensures Run(s, PrintItem(item)[..k]).closers == s.closers
  {
    match item {
      case Plain(c) =>
        OneStep(s, c);
      case Short(c) =>
        TwoSteps(s, '\\', c);
      case Unicode(hex) =>
        TwoSteps(s, '\\', 'u');
        PlainRun(s, hex);
        assert "\\u" == ['\\', 'u'];
        RunAppend(s, "\\u", hex);
    }
    ItemPrefixKeepsClosers(s, item, k);
  }

  lemma {:induction false} ItemPrefixKeepsClosers(s: Scan, item: StrItem, k: nat)
    requires s.inString && !s.escaped && ValidItem(item) && k <= |PrintItem(item)|
    ensures Run(s, PrintItem(item)[..k]).closers == s.closers
  {
    var t := PrintItem(item);
    if item.Unicode? {
      assert forall i :: 2 <= i < |t| ==> t[i] == item.hex[i - 2];
    }
    KeepsClosers(s, t[..k]);
  }

  /** A text whose only quotes and brackets follow a backslash keeps the open brackets. */
  lemma {:induction false} KeepsClosers(s: Scan, t: string)
    requires s.inString && !s.escaped
    requires |t| <= 2 || forall i :: 2 <= i < |t| ==> IsPlain(t[i])
    requires |t| >= 1 ==> t[0] != '"'
    requires |t| >= 2 ==> t[0] == '\\'
    ensures Run(s, t).closers == s.closers
  {
    if |t| == 1 {
      OneStep(s, t[0]);
      assert t == [t[0]];
    } else if |t| >= 2 {
      TwoSteps(s, t[0], t[1]);
      PlainRun(s, t[2..]);
      RunAppend(s, [t[0], t[1]], t[2..]);
      assert t == [t[0], t[1]] + t[2..];
    }
  }

  lemma {:induction false} LevelStr(base: seq<char>, items: seq<StrItem>)
    requires ValidItems(items)
    ensures Level(base, PrintStr(items))
  {
    var s, body := Outside(base), PrintItems(items);
    var inside := Scan(true, false, base);
    OneStep(s, '"');
    OneStep(inside, '"');
    ItemsStayInside(inside, items, 0);
    RunAppend(inside, body, "\"");
    RunAppend(s, "\"", body + "\"");
    forall k | 0 <= k <= |PrintStr(items)| ensures base <= Run(s, PrintStr(items)[..k]).closers {
      if 0 < k <= |body| + 1 {
        assert PrintStr(items)[..k] == "\"" + body[..k - 1];
        RunAppend(s, "\"", body[..k - 1]);
        ItemsStayInside(inside, items, k - 1);
      } else if k > 0 {
        assert PrintStr(items)[..k] == PrintStr(items);
      }
    }
  }

  /** Brackets around a level text: level outside, and strictly inside the pair until the end. */
  lemma {:induction false} LevelBrackets(base: seq<char>, open: char, close: char, body: string)
    requires (open == '{' && close == '}') || (open == '[' && close == ']')
    requires Level(base + [close], body)
    ensures Level(base, [open] + body + [close])
    ensures forall k :: 0 < k < |body| + 2 ==>
              base + [close] <= Run(Outside(base), ([open] + body + [close])[..k]).closers
  {
    var s, inner := Outside(base), Outside(base + [close]);
    var t := [open] + body + [close];
    OneStep(s, open);
    OneStep(inner, close);
    RunAppend(s, [open], body);
    RunAppend(s, [open] + body, [close]);
    forall k | 0 < k < |t| ensures base + [close] <= Run(s, t[..k]).closers {
      assert t[..k] == [open] + body[..k - 1];
      RunAppend(s, [open], body[..k - 1]);
    }
    forall k | 0 <= k <= |t| ensures base <= Run(s, t[..k]).closers {
      assert 0 < k < |t| ==> base <= base + [close];
      assert t[..|t|] == t;
    }
  }

  lemma {:induction false} LevelWrapped(base: seq<char>, open: char, close: char, ws: string, body: string)
    requires (open == '{' && close == '}') || (open == '[' && close == ']')
    requires IsWs(ws) && Level(base + [close], body)
    ensures Level(base, [open] + (ws + body) + [close])
    ensures forall k :: 0 < k < |ws + body| + 2 ==>
              base + [close] <= Run(Outside(base), ([open] + (ws + body) + [close])[..k]).closers
  {
    LevelPlain(base + [close], ws);
    LevelAppend(base + [close], ws, body);
    LevelBrackets(base, open, close, ws + body);
  }

  lemma {:induction false} LevelValue(base: seq<char>, v: Json)
    requires Valid(v)
    ensures Level(base, Print(v))
    decreases v
  {
    match v {
      case Literal(text) =>
        LevelPlain(base, text);
      case Str(items) =>
        LevelStr(base, items);
      case Arr(open, elems) =>
        LevelElems(base + [']'], elems);
        LevelWrapped(base, '[', ']', open, PrintElems(elems));
      case Obj(open, members) =>
        LevelMembers(base + ['}'], members);
        LevelWrapped(base, '{', '}', open, PrintMembers(members));
    }
  }

  lemma {:induction false} LevelElems(base: seq<char>, es: Elems)
    requires ValidElems(es)
    ensures Level(base, PrintElems(es))
    decreases es
  {
    match es {
      case NoElems =>
        LevelPlain(base, "");
      case Elem(before, value, after, rest) =>
        LevelPlain(base, before);
        LevelValue(base, value);
        LevelAppend(base, before, Print(value));
        LevelPlain(base, after);
        LevelAppend(base, before + Print(value), after);
        LevelPlain(base, "");
        LevelPlain(base, ",");
        LevelElems(base, rest);
        LevelAppend(base, ",", PrintElems(rest));
        LevelAppend(base, before + Print(value) + after, if rest.NoElems? then "" else "," + PrintElems(rest));
    }
  }

  lemma {:induction false} LevelMembers(base: seq<char>, ms: Members)
    requires ValidMembers(ms)
    ensures Level(base, PrintMembers(ms))
    decreases ms
  {
    match ms {
      case NoMembers =>
        LevelPlain(base, "");
      case Member(before, key, colon, gap, value, after, rest) =>
        LevelPlain(base, before);
        LevelStr(base, key);
        LevelAppend(base, before, PrintStr(key));
        LevelPlain(base, colon + ":" + gap);
        LevelAppend(base, before + PrintStr(key), colon + ":" + gap);
        LevelValue(base, value);
        LevelAppend(base, before + PrintStr(key) + (colon + ":" + gap), Print(value));
        LevelPlain(base, after);
        LevelAppend(base, before + PrintStr(key) + (colon + ":" + gap) + Print(value), after);
        LevelPlain(base, "");
        LevelPlain(base, ",");
        LevelMembers(base, rest);
        LevelAppend(base, ",", PrintMembers(rest));
        LevelAppend(base, before + PrintStr(key) + (colon + ":" + gap) + Print(value) + after,
                    if rest.NoMembers? then "" else "," + PrintMembers(rest));
    }
  }

  function CloserOf(v: Json): char
    requires IsContainer(v)
  {
    if v.Arr? then ']' else '}'
  }

  /** Strictly inside a printed container its own closer is the first bracket still owed. */
  lemma {:induction false} InsideContainer(v: Json, k: nat)
    requires Valid(v) && IsContainer(v) && 0 < k < |Print(v)|
    ensures [CloserOf(v)] <= Run(START, Print(v)[..k]).closers
  {
    var base: seq<char> := [];
    match v {
      case Arr(open, elems) =>
        LevelElems(base + [']'], elems);
        LevelWrapped(base, '[', ']', open, PrintElems(elems));
      case Obj(open, members) =>
        LevelMembers(base + ['}'], members);
        LevelWrapped(base, '{', '}', open, PrintMembers(members));
    }
  }

  // ---------- truncation detection is exact on serialised containers ----------

  /** A whole JSON text of any kind is never reported as truncated. */
  lemma {:induction false} WholeTextIsNotTruncated(v: Json)
    requires Valid(v)
    ensures !Truncated(Print(v)) && Repair(Print(v)) == Print(v)
  {
    LevelValue([], v);
    TrimIsIrrelevant(Print(v));
    TruncatedMeansRepairAdds(Print(v));
  }

  /** Of the non-empty prefixes of a JSON object or array, exactly the proper ones look truncated. */
  lemma {:induction false} PrefixTruncatedIffProper(v: Json, k: nat)
    requires Valid(v) && IsContainer(v) && 0 < k <= |Print(v)|
    ensures Truncated(Print(v)[..k]) <==> k < |Print(v)|
  {
    if k < |Print(v)| {
      InsideContainer(v, k);
      TrimIsIrrelevant(Print(v)[..k]);
    } else {
      assert Print(v)[..k] == Print(v);
      WholeTextIsNotTruncated(v);
    }
  }
}
