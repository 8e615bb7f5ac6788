/** JSON.stringify and JSON.parse restricted to what a checkpoint record holds: a list of strings.

    Encode produces exactly what JSON.stringify writes for a string array (no whitespace; the
    short escapes for '"', '\', backspace, tab, newline, form feed and carriage return; \u00xx in
    lower-case hex for the other control characters). Decode accepts that form, plus any JSON
    string escape (\/ and \uXXXX in either case), and rejects everything else. */
module Json {

  import opened Outcomes

  function HexDigit(n: nat): (c: char)
    requires n < 16
    ensures '0' <= c <= '9' || 'a' <= c <= 'f'
  {
    if n < 10 then ('0' as int + n) as char else ('a' as int + n - 10) as char
  }

  function HexValue(c: char): (r: Option<nat>)
    ensures r.Some? ==> r.value < 16
  {
    if '0' <= c <= '9' then Some(c as int - '0' as int)
    else if 'a' <= c <= 'f' then Some(c as int - 'a' as int + 10)
    else if 'A' <= c <= 'F' then Some(c as int - 'A' as int + 10)
    else None
  }

  /** No character below U+0020: the text fits on one line. */
  predicate Printable(s: string)
  {
    forall i :: 0 <= i < |s| ==> s[i] as int >= 0x20
  }

  lemma PrintableAppend(a: string, b: string)
    requires Printable(a) && Printable(b)
    ensures Printable(a + b)
  {
    forall i | 0 <= i < |a + b|
      ensures (a + b)[i] as int >= 0x20
    {
      if i >= |a| {
        assert (a + b)[i] == b[i - |a|];
      }
    }
  }

  /** The escape JSON.stringify writes for one character: the character itself when it is printable
      and needs no escape, and otherwise a backslash sequence of printable characters. */
  function EscapeChar(c: char): (r: string)
    ensures |r| >= 1
    ensures Printable(r)
    ensures c as int >= 0x20 && c != '"' && c != '\\' ==> r == [c]
  {
    if c == '"' then ['\\', '"']
    else if c == '\\' then ['\\', '\\']
    else if c as int == 8 then ['\\', 'b']
    else if c == '\t' then ['\\', 't']
    else if c == '\n' then ['\\', 'n']
    else if c as int == 12 then ['\\', 'f']
    else if c == '\r' then ['\\', 'r']
    else if c as int < 0x20 then ['\\', 'u', '0', '0', HexDigit(c as int / 16), HexDigit(c as int % 16)]
    else [c]
  }

  function Escape(s: string): (r: string)
    ensures Printable(r) && |s| <= |r|
  {
    if s == [] then []
    else
      PrintableAppend(EscapeChar(s[0]), Escape(s[1..]));
      EscapeChar(s[0]) + Escape(s[1..])
  }

  function Quote(s: string): (r: string)
    ensures Printable(r)
  {
    PrintableAppend(['"'], Escape(s));
    PrintableAppend(['"'] + Escape(s), ['"']);
    ['"'] + Escape(s) + ['"']
  }

  function Items(xs: seq<string>): (r: string)
    ensures Printable(r)
  {
    if xs == [] then ""
    else if |xs| == 1 then Quote(xs[0])
    else
      PrintableAppend(Quote(xs[0]), [',']);
      PrintableAppend(Quote(xs[0]) + [','], Items(xs[1..]));
      Quote(xs[0]) + [','] + Items(xs[1..])
  }

  /** JSON.stringify(xs) for a list of strings: a bracketed line of printable text, so that no
      control character, and in particular no newline, ever reaches a record. */
  function Encode(xs: seq<string>): (r: string)
    ensures Printable(r)
    ensures |r| >= 2 && r[0] == '[' && r[|r| - 1] == ']'
    ensures r == "[]" <==> xs == []
  {
    PrintableAppend(['['], Items(xs));
    PrintableAppend(['['] + Items(xs), [']']);
    ['['] + Items(xs) + [']']
  }

  /** The character an escape after a backslash stands for, and how many characters it takes. */
  function Unescape(t: string): (r: Option<(char, nat)>)
    ensures r.Some? ==> 1 <= r.value.1 <= |t|
  {
    if t == [] then None
    else if t[0] == '"' then Some(('"', 1))
    else if t[0] == '\\' then Some(('\\', 1))
    else if t[0] == '/' then Some(('/', 1))
    else if t[0] == 'b' then Some((8 as char, 1))
    else if t[0] == 't' then Some(('\t', 1))
    else if t[0] == 'n' then Some(('\n', 1))
    else if t[0] == 'f' then Some((12 as char, 1))
    else if t[0] == 'r' then Some(('\r', 1))
    else if t[0] == 'u' && |t| >= 5 then
      match (HexValue(t[1]), HexValue(t[2]), HexValue(t[3]), HexValue(t[4]))
      case (Some(a), Some(b), Some(c), Some(d)) =>
        var v := ((a * 16 + b) * 16 + c) * 16 + d;
        if 0xD800 <= v < 0xE000 then None else Some((v as char, 5))
      case _ => None
    else None
  }

  /** Reads the body of a JSON string up to its closing quote; gives the text and what follows. */
  function ParseString(s: string): (r: Option<(string, string)>)
    ensures r.Some? ==> |r.value.1| < |s|
    decreases |s|
  {
    if s == [] then None
    else if s[0] == '"' then Some(([], s[1..]))
    else if s[0] == '\\' then
      match Unescape(s[1..])
      case None => None
      case Some((c, k)) =>
        match ParseString(s[1 + k..])
        case None => None
        case Some((v, rest)) => Some(([c] + v, rest))
    else if s[0] as int < 0x20 then None
    else
      match ParseString(s[1..])
      case None => None
      case Some((v, rest)) => Some(([s[0]] + v, rest))
  }

  /** Reads `"..."` items separated by commas up to the closing bracket, which must end the text. */
  function ParseItems(s: string): (r: Option<seq<string>>)
    ensures r.Some? ==> |r.value| >= 1
    decreases |s|
  {
    if s == [] || s[0] != '"' then None
    else
      match ParseString(s[1..])
      case None => None
      case Some((x, rest)) =>
        if rest == [']'] then Some([x])
        else if rest != [] && rest[0] == ',' then
          match ParseItems(rest[1..])
          case None => None
          case Some(xs) => Some([x] + xs)
        else None
  }

  /** JSON.parse of a stored record; None where JSON.parse would throw or would not give a string list. */
  function Decode(t: string): (r: Option<seq<string>>)
    ensures r.Some? ==> t != [] && t[0] == '['
    ensures r == Some([]) <==> t == "[]"
  {
    if t == ['[', ']'] then Some([])
    else if t != [] && t[0] == '[' then ParseItems(t[1..])
    else None
  }

  lemma HexRoundTrip(n: nat)
    requires n < 16
    ensures HexValue(HexDigit(n)) == Some(n)
  {
  }

  /** Reading an escaped character gives the character back and continues after it. */
  lemma EscapeCharParses(c: char, tail: string)
    ensures ParseString(EscapeChar(c) + tail) ==
      match ParseString(tail)
      case None => None
      case Some((v, rest)) => Some(([c] + v, rest))
  {
    var s := EscapeChar(c) + tail;
    if c as int < 0x20 && c != '\t' && c != '\n' && c != '\r' && c as int != 8 && c as int != 12 {
      var hi, lo := c as int / 16, c as int % 16;
      HexRoundTrip(hi);
      HexRoundTrip(lo);
      assert s[1..][1..5] == ['0', '0', HexDigit(hi), HexDigit(lo)];
      assert Unescape(s[1..]) == Some((c, 5));
      assert s[1 + 5..] == tail;
    } else if |EscapeChar(c)| == 2 {
      assert Unescape(s[1..]) == Some((c, 1));
      assert s[1 + 1..] == tail;
    } else {
      assert s[1..] == tail;
    }
  }

  /** The body Quote writes is read back to the original text. */
  lemma {:induction false} EscapeParses(x: string, rest: string)
    ensures ParseString(Escape(x) + ['"'] + rest) == Some((x, rest))
    decreases |x|
  {
    if x == [] {
      assert Escape(x) + ['"'] + rest == ['"'] + rest;
    } else {
      var tail := Escape(x[1..]) + ['"'] + rest;
      assert Escape(x) + ['"'] + rest == EscapeChar(x[0]) + tail;
      EscapeCharParses(x[0], tail);
      EscapeParses(x[1..], rest);
      assert [x[0]] + x[1..] == x;
    }
  }

  /** Reading one quoted item, then whatever follows it. */
  lemma ParseItemsHead(x: string, after: string)
    ensures ParseItems(Quote(x) + after) ==
      if after == [']'] then Some([x])
      else if after != [] && after[0] == ',' then
        match ParseItems(after[1..])
        case None => None
        case Some(ys) => Some([x] + ys)
      else None
  {
    var body := Escape(x) + ['"'] + after;
    Regroup(['"'], Escape(x), ['"'], after);
    assert (['"'] + body)[1..] == body;
    EscapeParses(x, after);
  }

  /** An item followed by a comma and a readable rest reads as that item before the rest's items. */
  lemma ParseItemsComma(x: string, rest: string, ys: seq<string>)
    requires ParseItems(rest) == Some(ys)
    ensures ParseItems(Quote(x) + ([','] + rest)) == Some([x] + ys)
  {
    var after := [','] + rest;
    assert after[0] == ',' && after[1..] == rest;
    ParseItemsHead(x, after);
  }

  /** A list of two or more items is written as its first item, a comma and the rest. */
  lemma ItemsSplit(xs: seq<string>)
    requires |xs| > 1
    ensures Items(xs) + [']'] == Quote(xs[0]) + ([','] + (Items(xs[1..]) + [']']))
  {
    Regroup(Quote(xs[0]), [','], Items(xs[1..]), [']']);
  }

  lemma Regroup(a: string, b: string, c: string, d: string)
    ensures a + b + c + d == a + (b + (c + d)) == a + (b + c + d)
  {
  }

  lemma {:induction false} ItemsParse(xs: seq<string>)
    requires xs != []
    ensures ParseItems(Items(xs) + [']']) == Some(xs)
    decreases |xs|
  {
    if |xs| == 1 {
      ParseItemsHead(xs[0], [']']);
      assert [xs[0]] == xs;
    } else {
      ItemsSplit(xs);
      ItemsParse(xs[1..]);
      ParseItemsComma(xs[0], Items(xs[1..]) + [']'], xs[1..]);
      assert [xs[0]] + xs[1..] == xs;
    }
  }

  /** What JSON.stringify writes for a string list, JSON.parse reads back unchanged. */
  lemma DecodeEncode(xs: seq<string>)
    ensures Decode(Encode(xs)) == Some(xs)
  {
    if xs != [] {
      var body := Items(xs) + [']'];
      assert Encode(xs) == ['['] + body;
      assert (['['] + body)[1..] == body;
      ItemsParse(xs);
    }
  }
}
