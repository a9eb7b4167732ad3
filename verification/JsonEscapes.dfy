/** Escaping raw control characters keeps what a string literal means (section 7 of RFC 8259). */
module JsonEscapes {
  import opened JsonScan
  import opened JsonText

  /** An item of a string literal as a model may write it: a proper one, or a raw control character. */
  datatype LooseItem = Proper(item: StrItem) | Raw(c: char)

  predicate ValidLoose(item: LooseItem) {
    match item
    case Proper(strict) => ValidItem(strict)
    case Raw(c) => c <= '\U{1f}'
  }

  function PrintLoose(items: seq<LooseItem>): string {
    if items == [] then ""
    else (match items[0] case Proper(item) => PrintItem(item) case Raw(c) => [c]) + PrintLoose(items[1..])
  }

  function HexValue(c: char): nat
    requires IsHex(c)
  {
    if '0' <= c <= '9' then c as nat - '0' as nat
    else if 'a' <= c <= 'f' then c as nat - 'a' as nat + 10
    else c as nat - 'A' as nat + 10
  }

  /** The code unit that an item stands for. */
  function Meaning(item: StrItem): nat
    requires ValidItem(item)
  {
    match item
    case Plain(c) => c as nat
    case Short(c) =>
      if c == 'b' then 8 else if c == 't' then 9 else if c == 'n' then 10 else if c == 'f' then 12
      else if c == 'r' then 13 else c as nat
    case Unicode(hex) =>
      HexValue(hex[0]) * 4096 + HexValue(hex[1]) * 256 + HexValue(hex[2]) * 16 + HexValue(hex[3])
  }

  function LooseMeaning(item: LooseItem): nat
    requires ValidLoose(item)
  {
    match item
    case Proper(strict) => Meaning(strict)
    case Raw(c) => c as nat
  }

  lemma {:induction false} HexDigits(n: nat)
    requires n < 16
    ensures IsHex(HexDigit(n)) && HexValue(HexDigit(n)) == n
  {
  }

  /** The escape of one control character is an item that stands for it. */
  lemma {:induction false} EscapedControl(c: char) returns (item: StrItem)
    requires c <= '\U{1f}'
    ensures ValidItem(item) && PrintItem(item) == EscapeChar(c) && Meaning(item) == c as nat
  {
    var e := EscapeChar(c);
    if |e| == 2 {
      item := Short(e[1]);
    } else {
      HexDigits(c as int / 16);
      HexDigits(c as int % 16);
      var hex := ['0', '0', HexDigit(c as int / 16), HexDigit(c as int % 16)];
      item := Unicode(hex);
      assert e == ['\\', 'u'] + hex;
      assert "\\u" == ['\\', 'u'];
    }
  }

  /** Proper items hold no control character, so they stay as they are. */
  lemma {:induction false} ProperStays(item: StrItem)
    requires ValidItem(item)
    ensures Escape(PrintItem(item)) == PrintItem(item)
  {
    EscapeOfPlain(PrintItem(item));
  }

  /** However many raw control characters a string literal holds, its escape is a valid literal that
      stands for the same characters, item by item. */
  lemma {:induction false} EscapeKeepsMeaning(items: seq<LooseItem>) returns (strict: seq<StrItem>)
    requires forall i :: 0 <= i < |items| ==> ValidLoose(items[i])
    ensures Escape(PrintLoose(items)) == PrintItems(strict) && ValidItems(strict) && |strict| == |items|
    ensures forall i :: 0 <= i < |items| ==> Meaning(strict[i]) == LooseMeaning(items[i])
    decreases |items|
  {
    if items == [] {
      strict := [];
    } else {
      var first;
      match items[0] {
        case Proper(item) =>
          first := item;
          ProperStays(item);
          EscapeAppend(PrintItem(item), PrintLoose(items[1..]));
        case Raw(c) =>
          first := EscapedControl(c);
          OneEscape(c);
          EscapeAppend([c], PrintLoose(items[1..]));
      }
      assert ValidLoose(items[0]);
      var rest := EscapeKeepsMeaning(items[1..]);
      strict := [first] + rest;
      assert strict[1..] == rest;
    }
  }

  lemma {:induction false} OneEscape(c: char)
    ensures Escape([c]) == EscapeChar(c)
  {
    assert [c][1..] == "" && EscapeChar(c) + "" == EscapeChar(c);
  }

  /** The same for the literal with its quotes. */
  lemma {:induction false} EscapedLiteralMeansTheSame(items: seq<LooseItem>) returns (strict: seq<StrItem>)
    requires forall i :: 0 <= i < |items| ==> ValidLoose(items[i])
    ensures Escape("\"" + (PrintLoose(items) + "\"")) == PrintStr(strict) && Valid(Str(strict)) && |strict| == |items|
    ensures forall i :: 0 <= i < |items| ==> Meaning(strict[i]) == LooseMeaning(items[i])
  {
    strict := EscapeKeepsMeaning(items);
    OneEscape('"');
    EscapeAppend("\"", PrintLoose(items) + "\"");
    EscapeAppend(PrintLoose(items), "\"");
  }
}
