/** Parsing the tool-call arguments a model produced. The JSON parser and the unwrapping of Markdown
    or XML wrappers are parameters, so every result holds whatever they do. */
module ToolArguments {
  import opened Text
  import opened JsonScan

  datatype Value = Object(id: nat) | String(text: string) | Other(id: nat)

  type Parser = string -> Option<Value>

  const EMPTY_OBJECT := Object(0)

  function OrElse(first: Option<Value>, second: Option<Value>): Option<Value> {
    if first.Some? then first else second
  }

  /** As is, then repaired, then escaped, then both. */
  function SafelyParse(parse: Parser, s: string): Option<Value> {
    OrElse(parse(s), OrElse(parse(Repair(s)), OrElse(parse(Escape(s)), parse(Repair(Escape(s))))))
  }

  function UnwrapRounds(parse: Parser, original: Value, current: string, rounds: nat): Value
    decreases rounds
  {
    if rounds == 0 then original
    else
      match parse(current)
      case Some(Object(id)) => Object(id)
      case Some(String(inner)) => UnwrapRounds(parse, original, Trim(inner), rounds - 1)
      case _ => original
  }

  function UnwrapDoubleEncoded(parse: Parser, value: Value): Value {
    if value.String? then UnwrapRounds(parse, value, Trim(value.text), 3) else value
  }

  /** The fallback for a text the parser rejects: nothing when it looks truncated. */
  function Recover(parse: Parser, s: string): Option<Value> {
    if Truncated(s) then None else SafelyParse(parse, s)
  }

  /** What is accepted before double encoding is undone. */
  function Accepted(parse: Parser, strip: string -> Option<string>, args: string): Option<Value> {
    if parse(args).Some? then parse(args)
    else
      var inner :=
        match strip(args)
        case Some(body) => OrElse(parse(body), Recover(parse, body))
        case None => None;
      OrElse(inner, Recover(parse, args))
  }

  function ParseToolArguments(parse: Parser, strip: string -> Option<string>, args: string): Option<Value> {
    if args == "" then Some(EMPTY_OBJECT)
    else
      match Accepted(parse, strip, args)
      case Some(value) => Some(UnwrapDoubleEncoded(parse, value))
      case None => None
  }

  /** On a text that does not look truncated the repair adds nothing, before or after escaping. */
  lemma {:induction false} SafelyParseWithoutRepair(parse: Parser, s: string)
    requires !Truncated(s)
    ensures SafelyParse(parse, s) == OrElse(parse(s), parse(Escape(s)))
  {
    TruncatedMeansRepairAdds(s);
    EscapeKeepsTruncation(s);
    TruncatedMeansRepairAdds(Escape(s));
  }

  /** The two parsers agree on `s` and on its escaped form. */
  ghost predicate AgreeOn(p: Parser, q: Parser, s: string) {
    p(s) == q(s) && p(Escape(s)) == q(Escape(s))
  }

  /** The decision depends on the parser only at the arguments, at their unwrapped body and at the
      escaped forms of the two: no text with an invented closing delimiter is ever consulted. */
  lemma {:induction false} NoInventedDelimiter(p: Parser, q: Parser, strip: string -> Option<string>, args: string)
    requires AgreeOn(p, q, args)
    requires strip(args).Some? ==> AgreeOn(p, q, strip(args).value)
    ensures Accepted(p, strip, args) == Accepted(q, strip, args)
  {
    RecoverAgrees(p, q, args);
    if strip(args).Some? {
      RecoverAgrees(p, q, strip(args).value);
    }
  }

  lemma {:induction false} RecoverAgrees(p: Parser, q: Parser, s: string)
    requires AgreeOn(p, q, s)
    ensures Recover(p, s) == Recover(q, s)
  {
    if !Truncated(s) {
      SafelyParseWithoutRepair(p, s);
      SafelyParseWithoutRepair(q, s);
    }
  }

  /** An unwrapped text that looks truncated yields arguments only if it parses as it stands. */
  lemma {:induction false} TruncatedIsNeverCompleted(parse: Parser, strip: string -> Option<string>, args: string)
    requires Truncated(args) && strip(args).None?
    ensures ParseToolArguments(parse, strip, args).Some? <==> parse(args).Some?
  {
    TrimIsIrrelevant("");
  }

  // ---------- which text decides ----------

  /** The texts that are consulted, in order: the arguments, the body of their wrapper, and the escaped
      forms of those that do not look truncated. */
  function Consulted(strip: string -> Option<string>, args: string): seq<string> {
    [args]
    + (if strip(args).Some? then [strip(args).value] + (if Truncated(strip(args).value) then [] else [Escape(strip(args).value)]) else [])
    + (if Truncated(args) then [] else [Escape(args)])
  }

  /** `parse` accepts text `k` of the list and none before it. */
  predicate FirstAccepted(parse: Parser, texts: seq<string>, k: nat) {
    k < |texts| && parse(texts[k]).Some? && forall j :: 0 <= j < k ==> parse(texts[j]).None?
  }

  /** Arguments are what the first of these texts that parses holds, with double encoding undone; there
      are none exactly when no text parses; and empty arguments are an empty object. */
  lemma {:induction false} FirstTextThatParsesDecides(parse: Parser, strip: string -> Option<string>, args: string)
    ensures args == "" ==> ParseToolArguments(parse, strip, args) == Some(EMPTY_OBJECT)
    ensures args != "" && (forall t <- Consulted(strip, args) :: parse(t).None?) ==> ParseToolArguments(parse, strip, args) == None
    ensures forall k: nat :: args != "" && FirstAccepted(parse, Consulted(strip, args), k) ==>
              ParseToolArguments(parse, strip, args) == Some(UnwrapDoubleEncoded(parse, parse(Consulted(strip, args)[k]).value))
  {
    var texts := Consulted(strip, args);
    if !Truncated(args) {
      SafelyParseWithoutRepair(parse, args);
    }
    if strip(args).Some? && !Truncated(strip(args).value) {
      SafelyParseWithoutRepair(parse, strip(args).value);
    }
    hide Truncated, Escape, SafelyParse, UnwrapDoubleEncoded;
    assert texts[0] == args;
    AcceptedIsFirst(parse, strip, args);
  }

  /** The value of the first text that parses. */
  function FirstValue(parse: Parser, texts: seq<string>): Option<Value> {
    if texts == [] then None else OrElse(parse(texts[0]), FirstValue(parse, texts[1..]))
  }

  lemma {:induction false} FirstValueIs(parse: Parser, texts: seq<string>)
    ensures (forall t <- texts :: parse(t).None?) ==> FirstValue(parse, texts) == None
    ensures forall k: nat :: FirstAccepted(parse, texts, k) ==> FirstValue(parse, texts) == parse(texts[k])
    decreases |texts|
  {
    if texts != [] {
      FirstValueIs(parse, texts[1..]);
      forall k: nat | FirstAccepted(parse, texts, k) && k > 0 ensures FirstAccepted(parse, texts[1..], k - 1) {
        forall j | 0 <= j < k - 1 ensures parse(texts[1..][j]).None? {
          assert texts[1..][j] == texts[j + 1];
        }
      }
      assert forall t <- texts[1..] :: t in texts;
    }
  }

  lemma {:induction false} FirstValueAppend(parse: Parser, a: seq<string>, b: seq<string>)
    ensures FirstValue(parse, a + b) == OrElse(FirstValue(parse, a), FirstValue(parse, b))
    decreases |a|
  {
    if a == [] {
      assert a + b == b;
    } else {
      assert (a + b)[1..] == a[1..] + b;
      FirstValueAppend(parse, a[1..], b);
    }
  }

  lemma {:induction false} OneValue(parse: Parser, t: string)
    ensures FirstValue(parse, [t]) == parse(t)
  {
    assert [t][1..] == [];
  }

  lemma {:induction false} AcceptedIsFirst(parse: Parser, strip: string -> Option<string>, args: string)
    ensures Accepted(parse, strip, args) == FirstValue(parse, Consulted(strip, args))
    ensures (forall t <- Consulted(strip, args) :: parse(t).None?) ==> Accepted(parse, strip, args) == None
    ensures forall k: nat :: FirstAccepted(parse, Consulted(strip, args), k) ==>
              Accepted(parse, strip, args) == parse(Consulted(strip, args)[k])
  {
    FirstValueIs(parse, Consulted(strip, args));
    var escaped := if Truncated(args) then [] else [Escape(args)];
    var wrapped := if strip(args).Some? then [strip(args).value] + (if Truncated(strip(args).value) then [] else [Escape(strip(args).value)]) else [];
    RecoverIsEscaped(parse, args);
    if strip(args).Some? {
      RecoverIsEscaped(parse, strip(args).value);
    }
    FirstValueAppend(parse, [args] + wrapped, escaped);
    FirstValueAppend(parse, [args], wrapped);
    OneValue(parse, args);
    OneValue(parse, Escape(args));
    if strip(args).Some? {
      var body := strip(args).value;
      OneValue(parse, body);
      OneValue(parse, Escape(body));
      FirstValueAppend(parse, [body], if Truncated(body) then [] else [Escape(body)]);
    }
    hide Truncated, Escape, Recover;
  }

  lemma {:induction false} RecoverIsEscaped(parse: Parser, s: string)
    ensures Recover(parse, s) == if Truncated(s) then None else OrElse(parse(s), parse(Escape(s)))
  {
    if !Truncated(s) {
      SafelyParseWithoutRepair(parse, s);
    }
  }

  // ---------- double encoding ----------

  /** The text inside `k` encodings of the string `s`, if there are that many. */
  function Inside(parse: Parser, s: string, k: nat): Option<string> {
    if k == 0 then Some(Trim(s))
    else
      match Inside(parse, s, k - 1)
      case None => None
      case Some(t) => match parse(t) case Some(String(inner)) => Some(Trim(inner)) case _ => None
  }

  predicate HoldsObject(parse: Parser, s: string, k: nat, id: nat) {
    Inside(parse, s, k).Some? && parse(Inside(parse, s, k).value) == Some(Object(id))
  }

  /** The object that lies within the encodings from `k` on, or the string itself when none does. */
  ghost predicate IsUnwrapped(parse: Parser, s: string, k: nat, r: Value) {
    || (r == String(s) && forall j: nat, id: nat :: k <= j < 3 ==> !HoldsObject(parse, s, j, id))
    || (r.Object? && exists j: nat :: k <= j < 3 && HoldsObject(parse, s, j, r.id))
  }

  lemma {:induction false} RoundsUnwrap(parse: Parser, s: string, k: nat, rounds: nat)
    requires k + rounds == 3 && Inside(parse, s, k).Some?
    ensures IsUnwrapped(parse, s, k, UnwrapRounds(parse, String(s), Inside(parse, s, k).value, rounds))
    decreases rounds
  {
    hide Trim;
    if rounds > 0 {
      var t := Inside(parse, s, k).value;
      if parse(t).Some? && parse(t).value.Object? {
        assert HoldsObject(parse, s, k, parse(t).value.id);
      } else if parse(t).Some? && parse(t).value.String? {
        assert Inside(parse, s, k + 1) == Some(Trim(parse(t).value.text));
        RoundsUnwrap(parse, s, k + 1, rounds - 1);
        hide Inside, UnwrapRounds;
        assert forall id: nat :: !HoldsObject(parse, s, k, id);
      } else {
        forall j: nat, id: nat | k <= j < 3 ensures !HoldsObject(parse, s, j, id) {
          NothingFurther(parse, s, k, j);
        }
      }
    }
  }

  lemma {:induction false} NothingFurther(parse: Parser, s: string, k: nat, j: nat)
    requires k <= j && Inside(parse, s, k).Some?
    requires var t := Inside(parse, s, k).value; !(parse(t).Some? && parse(t).value.String?)
    ensures k < j ==> Inside(parse, s, j) == None
    decreases j
  {
    if k < j {
      NothingFurther(parse, s, k, j - 1);
    }
  }

  /** A string is replaced exactly when an object lies within three encodings of it, and then by that
      object; every other value stays. */
  lemma {:induction false} UnwrapsWithinThreeEncodings(parse: Parser, value: Value)
    ensures if value.String? then IsUnwrapped(parse, value.text, 0, UnwrapDoubleEncoded(parse, value))
            else UnwrapDoubleEncoded(parse, value) == value
  {
    if value.String? {
      RoundsUnwrap(parse, value.text, 0, 3);
    }
  }
}
