/** The canonical text under every commitment: what `write_node` appends for a tree, a parser
    that recovers the tree, and so unique decodability. Text is a sequence of characters; the
    UTF-8 encoding of those characters is not modelled. */
module Canonical {
  import opened Prelude
  import opened Decimal
  import opened Order

  datatype Node =
    | Null
    | Bool(value: bool)
    | Signed(signed: int)
    | Unsigned(unsigned: nat)
    | String(text: string)
    | Sequence(items: seq<Node>)
    | Object(fields: seq<(string, Node)>)

  function HexDigit(n: nat): char
    requires n < 16
  {
    if n < 10 then '0' + n as char else 'a' + (n - 10) as char
  }

  /** The escape of one character: two-character escapes first, then `\u00xx` for the other
      control characters, everything else as itself. */
  function Escaped(c: char): (e: string)
    ensures e != []
  {
    if c == '"' then "\\\""
    else if c == '\\' then "\\\\"
    else if c == '\U{0008}' then "\\b"
    else if c == '\t' then "\\t"
    else if c == '\n' then "\\n"
    else if c == '\U{000c}' then "\\f"
    else if c == '\r' then "\\r"
    else if c <= '\U{001f}' then "\\u00" + [HexDigit(c as int / 16), HexDigit(c as int % 16)]
    else [c]
  }

  function EscapedText(s: string): string {
    if s == [] then [] else Escaped(s[0]) + EscapedText(s[1..])
  }

  function Quoted(s: string): string { "\"" + EscapedText(s) + "\"" }

  /** The canonical text of a tree. */
  function Encoded(n: Node): string {
    match n
    case Null => "null"
    case Bool(b) => if b then "true" else "false"
    case Signed(v) => Print(v)
    case Unsigned(v) => Print(v)
    case String(s) => Quoted(s)
    case Sequence(items) => "[" + EncodedItems(items) + "]"
    case Object(fields) => "{" + EncodedFields(fields) + "}"
  }

  function EncodedItems(items: seq<Node>): string {
    if items == [] then ""
    else if |items| == 1 then Encoded(items[0])
    else Encoded(items[0]) + "," + EncodedItems(items[1..])
  }

  function EncodedField(field: (string, Node)): string {
    Quoted(field.0) + ":" + Encoded(field.1)
  }

  function EncodedFields(fields: seq<(string, Node)>): string {
    if fields == [] then ""
    else if |fields| == 1 then EncodedField(fields[0])
    else EncodedField(fields[0]) + "," + EncodedFields(fields[1..])
  }

  // ---- the writer ------------------------------------------------------------------------

  lemma {:induction false} EscapedTextAppend(s: string, c: char)
    ensures EscapedText(s + [c]) == EscapedText(s) + Escaped(c)
  {
    if s == [] {
      assert [c][1..] == [];
    } else {
      assert (s + [c])[1..] == s[1..] + [c];
      EscapedTextAppend(s[1..], c);
    }
  }

  lemma {:induction false} EncodedItemsAppend(items: seq<Node>, n: Node)
    ensures EncodedItems(items + [n]) == EncodedItems(items) + (if items == [] then "" else ",") + Encoded(n)
  {
    if items != [] {
      assert (items + [n])[1..] == items[1..] + [n];
      EncodedItemsAppend(items[1..], n);
    }
  }

  lemma {:induction false} EncodedFieldsAppend(fields: seq<(string, Node)>, f: (string, Node))
    ensures EncodedFields(fields + [f]) == EncodedFields(fields) + (if fields == [] then "" else ",") + EncodedField(f)
  {
    if fields != [] {
      assert (fields + [f])[1..] == fields[1..] + [f];
      EncodedFieldsAppend(fields[1..], f);
    }
  }

  /** The growing output buffer. */
  class Writer {
    var output: string

    constructor ()
      ensures output == ""
    {
      output := "";
    }

    static lemma NoText()
      ensures EscapedText("") == ""
    {}

    method WriteString(value: string)
      modifies this
      ensures output == old(output) + Quoted(value)
    {
      hide Escaped, EscapedText;
      NoText();
      output := output + "\"";
      for i := 0 to |value|
        invariant output == old(output) + "\"" + EscapedText(value[..i])
      {
        EscapedTextAppend(value[..i], value[i]);
        assert value[..i + 1] == value[..i] + [value[i]];
        output := output + Escaped(value[i]);
      }
      assert value[..|value|] == value;
      output := output + "\"";
    }

    method WriteItems(items: seq<Node>)
      modifies this
      ensures output == old(output) + EncodedItems(items)
      decreases items
    {
      hide Encoded;
      for i := 0 to |items|
        invariant output == old(output) + EncodedItems(items[..i])
      {
        EncodedItemsAppend(items[..i], items[i]);
        assert items[..i + 1] == items[..i] + [items[i]];
        if i != 0 { output := output + ","; }
        WriteNode(items[i]);
      }
      assert items[..|items|] == items;
    }

    method WriteFields(fields: seq<(string, Node)>)
      modifies this
      ensures output == old(output) + EncodedFields(fields)
      decreases fields
    {
      hide EncodedField;
      for i := 0 to |fields|
        invariant output == old(output) + EncodedFields(fields[..i])
      {
        EncodedFieldsAppend(fields[..i], fields[i]);
        assert fields[..i + 1] == fields[..i] + [fields[i]];
        if i != 0 { output := output + ","; }
        WriteField(fields[i]);
      }
      assert fields[..|fields|] == fields;
    }

    method WriteField(field: (string, Node))
      modifies this
      ensures output == old(output) + EncodedField(field)
      decreases field
    {
      WriteString(field.0);
      output := output + ":";
      WriteNode(field.1);
    }

    method WriteNode(node: Node)
      modifies this
      ensures output == old(output) + Encoded(node)
      decreases node
    {
      match node {
        case Null => output := output + "null";
        case Bool(b) => output := output + (if b then "true" else "false");
        case Signed(v) => output := output + Print(v);
        case Unsigned(v) => output := output + Print(v);
        case String(s) => WriteString(s);
        case Sequence(items) =>
          output := output + "[";
          WriteItems(items);
          output := output + "]";
        case Object(fields) =>
          output := output + "{";
          WriteFields(fields);
          output := output + "}";
      }
    }
  }

  // ---- the parser ------------------------------------------------------------------------

  predicate IsHexDigit(c: char) { IsDigit(c) || 'a' <= c <= 'f' }

  function HexValue(c: char): nat
    requires IsHexDigit(c)
  {
    if IsDigit(c) then DigitValue(c) else 10 + (c as int - 'a' as int)
  }

  /** One possibly escaped character, and what follows it. */
  function ParseChar(s: string): (r: Option<(char, string)>)
    ensures r.Some? ==> |r.value.1| < |s|
  {
    if s == [] then None
    else if s[0] != '\\' then Some((s[0], s[1..]))
    else if |s| < 2 then None
    else match s[1]
      case '"' => Some(('"', s[2..]))
      case '\\' => Some(('\\', s[2..]))
      case 'b' => Some(('\U{0008}', s[2..]))
      case 't' => Some(('\t', s[2..]))
      case 'n' => Some(('\n', s[2..]))
      case 'f' => Some(('\U{000c}', s[2..]))
      case 'r' => Some(('\r', s[2..]))
      case 'u' =>
        if |s| >= 6 && s[2] == '0' && s[3] == '0' && IsHexDigit(s[4]) && IsHexDigit(s[5])
        then Some(((16 * HexValue(s[4]) + HexValue(s[5])) as char, s[6..])) else None
      case _ => None
  }

  /** The rest of a string literal, up to and including the closing quote. */
  function ParseText(s: string): (r: Option<(string, string)>)
    ensures r.Some? ==> |r.value.1| < |s|
    decreases |s|
  {
    if s == [] then None
    else if s[0] == '"' then Some(("", s[1..]))
    else match ParseChar(s)
      case None => None
      case Some((c, rest)) =>
        match ParseText(rest)
        case None => None
        case Some((text, last)) => Some(([c] + text, last))
  }

  function DigitCount(s: string): (n: nat)
    ensures n <= |s| && AllDigits(s[..n])
    ensures n < |s| ==> !IsDigit(s[n])
  {
    if s == [] || !IsDigit(s[0]) then 0
    else
      var n := 1 + DigitCount(s[1..]);
      assert s[..n] == [s[0]] + s[1..][..n - 1];
      n
  }

  predicate StartsWith(s: string, prefix: string) { prefix <= s }

  /** A tree at the head of the text, and what follows it. */
  function ParseNode(s: string): (r: Option<(Node, string)>)
    ensures r.Some? ==> |r.value.1| < |s|
    decreases |s|, 1
  {
    if s == [] then None
    else if StartsWith(s, "null") then Some((Null, s[4..]))
    else if StartsWith(s, "true") then Some((Bool(true), s[4..]))
    else if StartsWith(s, "false") then Some((Bool(false), s[5..]))
    else if s[0] == '"' then
      match ParseText(s[1..])
      case None => None
      case Some((text, rest)) => Some((String(text), rest))
    else if s[0] == '[' then
      if |s| >= 2 && s[1] == ']' then Some((Sequence([]), s[2..]))
      else match ParseItems(s[1..])
        case None => None
        case Some((items, rest)) => Some((Sequence(items), rest))
    else if s[0] == '{' then
      if |s| >= 2 && s[1] == '}' then Some((Object([]), s[2..]))
      else match ParseFields(s[1..])
        case None => None
        case Some((fields, rest)) => Some((Object(fields), rest))
    else
      var negative := s[0] == '-';
      var digits := if negative then s[1..] else s;
      var n := DigitCount(digits);
      if n == 0 then None
      else Some((Signed(if negative then 0 - NatValue(digits[..n]) else NatValue(digits[..n]) as int), digits[n..]))
  }

  /** One or more trees separated by commas, up to and including the closing bracket. */
  function ParseItems(s: string): (r: Option<(seq<Node>, string)>)
    ensures r.Some? ==> |r.value.1| < |s|
    decreases |s|, 2
  {
    match ParseNode(s)
    case None => None
    case Some((item, rest)) =>
      if rest == [] then None
      else if rest[0] == ']' then Some(([item], rest[1..]))
      else if rest[0] != ',' then None
      else match ParseItems(rest[1..])
        case None => None
        case Some((items, last)) => Some(([item] + items, last))
  }

  function ParseFields(s: string): (r: Option<(seq<(string, Node)>, string)>)
    ensures r.Some? ==> |r.value.1| < |s|
    decreases |s|, 2
  {
    if s == [] || s[0] != '"' then None
    else match ParseText(s[1..])
      case None => None
      case Some((key, afterKey)) =>
        if afterKey == [] || afterKey[0] != ':' then None
        else match ParseNode(afterKey[1..])
          case None => None
          case Some((value, rest)) =>
            if rest == [] then None
            else if rest[0] == '}' then Some(([(key, value)], rest[1..]))
            else if rest[0] != ',' then None
            else match ParseFields(rest[1..])
              case None => None
              case Some((fields, last)) => Some(([(key, value)] + fields, last))
  }

  // ---- the round trip --------------------------------------------------------------------

  /** Trees up to the type an integer was stored in: unsigned integers as signed ones. */
  function Plain(n: Node): Node {
    match n
    case Unsigned(v) => Signed(v)
    case Sequence(items) => Sequence(PlainItems(items))
    case Object(fields) => Object(PlainFields(fields))
    case _ => n
  }

  function PlainItems(items: seq<Node>): (r: seq<Node>)
    ensures |r| == |items| && forall i | 0 <= i < |r| :: r[i] == Plain(items[i])
  {
    if items == [] then [] else [Plain(items[0])] + PlainItems(items[1..])
  }

  function PlainField(field: (string, Node)): (string, Node) {
    (field.0, Plain(field.1))
  }

  function PlainFields(fields: seq<(string, Node)>): (r: seq<(string, Node)>)
    ensures |r| == |fields| && forall i | 0 <= i < |r| :: r[i] == PlainField(fields[i])
  {
    if fields == [] then [] else [PlainField(fields[0])] + PlainFields(fields[1..])
  }

  /** Text that cannot continue a number. */
  predicate NoDigitAhead(s: string) { s == [] || !IsDigit(s[0]) }

  lemma CharRoundTrip(c: char, rest: string)
    ensures ParseChar(Escaped(c) + rest) == Some((c, rest))
    ensures Escaped(c)[0] != '"'
  {
    var s := Escaped(c) + rest;
    if s[0] == '\\' {
      if s[1] == 'u' {
        assert s[6..] == rest;
        assert (16 * HexValue(s[4]) + HexValue(s[5])) == c as int;
      } else {
        assert s[2..] == rest;
      }
    } else {
      assert s[1..] == rest;
    }
  }

  /** Text that may stand for one character inside a literal: no control character, and it does not
      close the literal. */
  predicate LiteralText(e: string) {
    e != [] && e[0] != '"' && forall i | 0 <= i < |e| :: e[i] >= ' '
  }

  /** The escape of a character is the one shortest text that may stand in a literal and reads back
      as that character: any other such text is strictly longer. */
  lemma {:induction false} EscapeIsShortest(c: char, e: string, rest: string)
    requires LiteralText(e) && ParseChar(e + rest) == Some((c, rest))
    ensures LiteralText(Escaped(c)) && ParseChar(Escaped(c) + rest) == Some((c, rest))
    ensures e == Escaped(c) || |e| > |Escaped(c)|
  {
    CharRoundTrip(c, rest);
    var s := e + rest;
    assert s[|e|..] == rest;
    assert |e| == if s[0] != '\\' then 1 else if s[1] == 'u' then 6 else 2;
    if |e| == 1 {
      assert e == [s[0]];
    } else if |e| == 2 {
      assert e == [s[0], s[1]];
    } else {
      assert e == "\\u00" + [s[4], s[5]];
      assert c as int / 16 == HexValue(s[4]) && c as int % 16 == HexValue(s[5]);
      assert HexDigit(HexValue(s[4])) == s[4] && HexDigit(HexValue(s[5])) == s[5];
    }
  }

  /** Text without quotes, backslashes and control characters is written as it is. */
  lemma {:induction false} PlainEscaped(s: string)
    requires forall i | 0 <= i < |s| :: s[i] >= ' ' && s[i] != '"' && s[i] != '\\'
    ensures EscapedText(s) == s
    decreases |s|
  {
    if s != [] {
      PlainEscaped(s[1..]);
      assert s == [s[0]] + s[1..];
    }
  }

  lemma PlainQuoted(s: string)
    requires forall i | 0 <= i < |s| :: s[i] >= ' ' && s[i] != '"' && s[i] != '\\'
    ensures Quoted(s) == "\"" + s + "\""
  {
    PlainEscaped(s);
  }

  lemma {:induction false} TextRoundTrip(text: string, rest: string)
    ensures ParseText(EscapedText(text) + "\"" + rest) == Some((text, rest))
    decreases |text|
  {
    var s := EscapedText(text) + "\"" + rest;
    if text == [] {
      assert s == "\"" + rest;
      assert s[1..] == rest;
    } else {
      var tail := EscapedText(text[1..]) + "\"" + rest;
      assert s == Escaped(text[0]) + tail;
      CharRoundTrip(text[0], tail);
      TextRoundTrip(text[1..], rest);
      assert text == [text[0]] + text[1..];
    }
  }

  lemma QuotedRoundTrip(text: string, rest: string)
    ensures var s := Quoted(text) + rest; s[0] == '"' && ParseText(s[1..]) == Some((text, rest))
  {
    TextRoundTrip(text, rest);
    assert (Quoted(text) + rest)[1..] == EscapedText(text) + "\"" + rest;
  }

  lemma {:induction false} DigitCountOf(digits: string, rest: string)
    requires AllDigits(digits) && NoDigitAhead(rest)
    ensures DigitCount(digits + rest) == |digits|
  {
    var s := digits + rest;
    if digits != [] {
      assert IsDigit(digits[0]);
      assert s[1..] == digits[1..] + rest;
      DigitCountOf(digits[1..], rest);
    } else {
      assert s == rest;
    }
  }

  lemma {:induction false} IntegerRoundTrip(v: int, rest: string)
    requires NoDigitAhead(rest)
    ensures ParseNode(Print(v) + rest) == Some((Signed(v), rest))
  {
    hide PrintNat, NatValue, DigitCount, ParseText, ParseItems, ParseFields;
    var digits := PrintNat(Magnitude(v));
    NatValueOfPrint(Magnitude(v));
    DigitCountOf(digits, rest);
    var s := Print(v) + rest;
    assert IsDigit(digits[0]);
    if v < 0 { assert s[1..] == digits + rest; } else { assert s == digits + rest; }
    assert (digits + rest)[..|digits|] == digits && (digits + rest)[|digits|..] == rest;
    assert IsDigit(s[0]) || s[0] == '-';
    assert !StartsWith(s, "null") && !StartsWith(s, "true") && !StartsWith(s, "false") by { NotKeyword(s); }
  }

  lemma NotKeyword(s: string)
    requires s != [] && s[0] != 'n' && s[0] != 't' && s[0] != 'f'
    ensures !StartsWith(s, "null") && !StartsWith(s, "true") && !StartsWith(s, "false")
  {
    assert "null"[0] == 'n' && "true"[0] == 't' && "false"[0] == 'f';
  }

  lemma EncodedHead(n: Node)
    ensures Encoded(n) != [] && Encoded(n)[0] != ']' && Encoded(n)[0] != '}' && Encoded(n)[0] != ','
  {
    match n {
      case Signed(v) => assert IsDigit(PrintNat(Magnitude(v))[0]);
      case Unsigned(v) => assert IsDigit(PrintNat(v)[0]);
      case _ =>
    }
  }

  /** The parser recovers a tree from its text followed by anything that is not a digit. */
  lemma {:induction false} NodeRoundTrip(n: Node, rest: string)
    requires NoDigitAhead(rest)
    ensures ParseNode(Encoded(n) + rest) == Some((Plain(n), rest))
    decreases n, 1
  {
    var s := Encoded(n) + rest;
    match n {
      case Null => assert s[4..] == rest;
      case Bool(b) => BoolRoundTrip(b, rest);
      case Signed(v) => IntegerRoundTrip(v, rest);
      case Unsigned(v) => IntegerRoundTrip(v, rest);
      case String(text) =>
        QuotedRoundTrip(text, rest);
        NotKeyword(s);
      case Sequence(items) => SequenceRoundTrip(n, rest);
      case Object(fields) => ObjectRoundTrip(n, rest);
    }
  }

  lemma BoolRoundTrip(b: bool, rest: string)
    ensures ParseNode(Encoded(Bool(b)) + rest) == Some((Bool(b), rest))
  {
    var s := Encoded(Bool(b)) + rest;
    assert "null"[0] == 'n' && s[0] != 'n';
    if b {
      assert s[4..] == rest;
    } else {
      assert "true"[0] == 't' && s[0] != 't';
      assert s[5..] == rest;
    }
  }

  lemma {:induction false} SequenceRoundTrip(n: Node, rest: string)
    requires n.Sequence? && NoDigitAhead(rest)
    ensures ParseNode(Encoded(n) + rest) == Some((Plain(n), rest))
    decreases n, 0
  {
    var s := Encoded(n) + rest;
    NotKeyword(s);
    if n.items == [] {
      assert Encoded(n) == "[]";
      assert s[2..] == rest;
    } else {
      var body := EncodedItems(n.items) + "]" + rest;
      assert s[1..] == body;
      ItemsHead(n.items);
      assert s[1] == body[0];
      ItemsRoundTrip(n.items, rest);
    }
  }

  lemma ItemsHead(items: seq<Node>)
    requires items != []
    ensures EncodedItems(items) != [] && EncodedItems(items)[0] != ']'
  {
    EncodedHead(items[0]);
  }

  lemma {:induction false} ItemsRoundTrip(items: seq<Node>, rest: string)
    requires items != [] && NoDigitAhead(rest)
    ensures ParseItems(EncodedItems(items) + "]" + rest) == Some((PlainItems(items), rest))
    decreases items
  {
    hide Encoded, ParseNode, Plain;
    var s := EncodedItems(items) + "]" + rest;
    if |items| == 1 {
      assert s == Encoded(items[0]) + ("]" + rest);
      NodeRoundTrip(items[0], "]" + rest);
      assert ("]" + rest)[1..] == rest;
      assert items[1..] == [];
      assert PlainItems(items) == [Plain(items[0])];
    } else {
      var tail := EncodedItems(items[1..]) + "]" + rest;
      assert s == Encoded(items[0]) + ("," + tail);
      NodeRoundTrip(items[0], "," + tail);
      assert ("," + tail)[1..] == tail;
      ItemsRoundTrip(items[1..], rest);
    }
  }

  lemma {:induction false} ObjectRoundTrip(n: Node, rest: string)
    requires n.Object? && NoDigitAhead(rest)
    ensures ParseNode(Encoded(n) + rest) == Some((Plain(n), rest))
    decreases n, 0
  {
    var s := Encoded(n) + rest;
    NotKeyword(s);
    if n.fields == [] {
      assert Encoded(n) == "{}";
      assert s[2..] == rest;
    } else {
      var body := EncodedFields(n.fields) + "}" + rest;
      assert s[1..] == body;
      FieldsHead(n.fields);
      assert s[1] == body[0];
      FieldsRoundTrip(n.fields, rest);
    }
  }

  lemma FieldsHead(fields: seq<(string, Node)>)
    requires fields != []
    ensures EncodedFields(fields) != [] && EncodedFields(fields)[0] == '"'
  {
    assert Quoted(fields[0].0)[0] == '"';
    assert EncodedField(fields[0])[0] == '"';
  }

  /** One field up to what follows its value. */
  lemma {:induction false} FieldRoundTrip(field: (string, Node), after: string)
    requires NoDigitAhead(after)
    ensures var s := EncodedField(field) + after;
            && s[0] == '"'
            && ParseText(s[1..]) == Some((field.0, ":" + Encoded(field.1) + after))
            && ParseNode((":" + Encoded(field.1) + after)[1..]) == Some((Plain(field.1), after))
    decreases field
  {
    FieldSplits(Quoted(field.0), Encoded(field.1), after);
    QuotedRoundTrip(field.0, ":" + Encoded(field.1) + after);
    hide Encoded, ParseNode, ParseText, Quoted;
    NodeRoundTrip(field.1, after);
  }

  lemma FieldSplits(key: string, value: string, after: string)
    ensures key + ":" + value + after == key + (":" + value + after)
    ensures (":" + value + after)[1..] == value + after
  {}

  lemma {:induction false} FieldsRoundTrip(fields: seq<(string, Node)>, rest: string)
    requires fields != [] && NoDigitAhead(rest)
    ensures ParseFields(EncodedFields(fields) + "}" + rest) == Some((PlainFields(fields), rest))
    decreases fields
  {
    hide EncodedField, ParseNode, ParseText, Plain;
    var s := EncodedFields(fields) + "}" + rest;
    var tail := EncodedFields(fields[1..]) + "}" + rest;
    var after := if |fields| == 1 then "}" + rest else "," + tail;
    assert s == EncodedField(fields[0]) + after;
    FieldRoundTrip(fields[0], after);
    assert after[1..] == if |fields| == 1 then rest else tail;
    if |fields| == 1 {
      assert PlainFields(fields) == [PlainField(fields[0])];
    } else {
      FieldsRoundTrip(fields[1..], rest);
      assert PlainFields(fields) == [PlainField(fields[0])] + PlainFields(fields[1..]);
    }
  }

  lemma {:induction false} PlainEncodes(n: Node)
    ensures Encoded(Plain(n)) == Encoded(n)
    decreases n, 1
  {
    match n {
      case Sequence(items) => PlainItemsEncode(items);
      case Object(fields) => PlainFieldsEncode(fields);
      case _ =>
    }
  }

  lemma {:induction false} PlainItemsEncode(items: seq<Node>)
    ensures EncodedItems(PlainItems(items)) == EncodedItems(items)
    decreases items
  {
    if items != [] {
      PlainEncodes(items[0]);
      PlainItemsEncode(items[1..]);
      assert PlainItems(items)[1..] == PlainItems(items[1..]);
    }
  }

  lemma {:induction false} PlainFieldEncodes(field: (string, Node))
    ensures EncodedField(PlainField(field)) == EncodedField(field)
    decreases field
  {
    PlainEncodes(field.1);
  }

  lemma {:induction false} PlainFieldsEncode(fields: seq<(string, Node)>)
    ensures EncodedFields(PlainFields(fields)) == EncodedFields(fields)
    decreases fields
  {
    if fields != [] {
      PlainFieldEncodes(fields[0]);
      PlainFieldsEncode(fields[1..]);
      assert PlainFields(fields)[1..] == PlainFields(fields[1..]);
    }
  }

  /** Two trees have the same text exactly when they are equal up to the integer type; and a text
      followed by a non-digit splits in one way only. */
  lemma UniquelyDecodable(a: Node, b: Node, afterA: string, afterB: string)
    requires NoDigitAhead(afterA) && NoDigitAhead(afterB)
    ensures Encoded(a) + afterA == Encoded(b) + afterB <==> Plain(a) == Plain(b) && afterA == afterB
  {
    NodeRoundTrip(a, afterA);
    NodeRoundTrip(b, afterB);
    PlainEncodes(a);
    PlainEncodes(b);
  }

  // ---- objects are built by insertion ----------------------------------------------------

  /** An ordered map after inserting the fields one by one; a repeated key keeps the last value. */
  function Built(insertions: seq<(string, Node)>): seq<(string, Node)> {
    if insertions == [] then []
    else
      var (key, value) := insertions[|insertions| - 1];
      Put(LexLess, Built(insertions[..|insertions| - 1]), key, value)
  }

  function BuiltMap(insertions: seq<(string, Node)>): map<string, Node> {
    if insertions == [] then map[]
    else
      var (key, value) := insertions[|insertions| - 1];
      BuiltMap(insertions[..|insertions| - 1])[key := value]
  }

  lemma {:induction false} BuiltLists(insertions: seq<(string, Node)>)
    ensures Lists(LexLess, Built(insertions), BuiltMap(insertions))
    decreases |insertions|
  {
    if insertions != [] {
      var init := insertions[..|insertions| - 1];
      var (key, value) := insertions[|insertions| - 1];
      BuiltLists(init);
      LexIsStrictOrder();
      PutLists(LexLess, Built(init), BuiltMap(init), key, value);
    }
  }

  /** The order in which a structure's fields are serialized never reaches the text: it depends
      only on the final map, and equal texts mean equal maps up to the integer type. */
  lemma FieldOrderIrrelevant(a: seq<(string, Node)>, b: seq<(string, Node)>)
    ensures BuiltMap(a) == BuiltMap(b) ==> Encoded(Object(Built(a))) == Encoded(Object(Built(b)))
    ensures Encoded(Object(Built(a))) == Encoded(Object(Built(b))) ==>
              BuiltMap(a).Keys == BuiltMap(b).Keys && forall k | k in BuiltMap(a) ::
                Plain(BuiltMap(a)[k]) == Plain(BuiltMap(b)[k])
  {
    BuiltLists(a);
    BuiltLists(b);
    if BuiltMap(a) == BuiltMap(b) {
      LexIsStrictOrder();
      ListsUnique(LexLess, Built(a), Built(b), BuiltMap(a));
    }
    if Encoded(Object(Built(a))) == Encoded(Object(Built(b))) {
      assert Encoded(Object(Built(a))) + "" == Encoded(Object(Built(b))) + "";
      UniquelyDecodable(Object(Built(a)), Object(Built(b)), "", "");
      SameFields(Built(a), Built(b), BuiltMap(a), BuiltMap(b));
      SameFields(Built(b), Built(a), BuiltMap(b), BuiltMap(a));
    }
  }

  lemma SameFields(a: seq<(string, Node)>, b: seq<(string, Node)>, m: map<string, Node>, n: map<string, Node>)
    requires Lists(LexLess, a, m) && Lists(LexLess, b, n) && PlainFields(a) == PlainFields(b)
    ensures forall k | k in m :: k in n && Plain(m[k]) == Plain(n[k])
  {
    forall k | k in m ensures k in n && Plain(m[k]) == Plain(n[k]) {
      assert Listed(a, k);
      var i :| 0 <= i < |a| && a[i].0 == k;
      assert PlainFields(a)[i] == PlainFields(b)[i];
    }
  }
}
