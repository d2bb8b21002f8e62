// `canonical_json`: compact JSON text with sorted keys, the text that hashes and signatures are
// taken of. RFC 8259 sections 4 (objects), 5 (arrays), 6 (numbers) and 7 (strings).
module CanonicalJson {
  import opened Json

  // ---- Key order: strings by code point --------------------------------------------------

  predicate StrLe(a: string, b: string) {
    a == "" || (b != "" && (a[0] < b[0] || (a[0] == b[0] && StrLe(a[1..], b[1..]))))
  }

  lemma {:induction false} StrLeTotal(a: string, b: string)
    ensures StrLe(a, b) || StrLe(b, a)
    ensures StrLe(a, b) && StrLe(b, a) ==> a == b
  {
    if a != "" && b != "" && a[0] == b[0] {
      StrLeTotal(a[1..], b[1..]);
      assert a == [a[0]] + a[1..] && b == [b[0]] + b[1..];
    }
  }

  lemma {:induction false} StrLeTransitive(a: string, b: string, c: string)
    requires StrLe(a, b) && StrLe(b, c)
    ensures StrLe(a, c)
  {
    if a != "" && a[0] == b[0] == c[0] {
      StrLeTransitive(a[1..], b[1..], c[1..]);
    }
  }

  predicate IsLeast(k: string, s: set<string>) {
    k in s && forall x | x in s :: StrLe(k, x)
  }

  lemma {:induction false} LeastExists(s: set<string>) returns (k: string)
    requires s != {}
    ensures IsLeast(k, s)
  {
    var x :| x in s;
    if s == {x} {
      StrLeTotal(x, x);
      k := x;
    } else {
      var k' := LeastExists(s - {x});
      StrLeTotal(x, k');
      StrLeTotal(x, x);
      k := if StrLe(x, k') then x else k';
      forall y | y in s ensures StrLe(k, y) {
        if y != x { if k == x { StrLeTransitive(x, k', y); } }
      }
    }
  }

  lemma LeastIsUnique(s: set<string>)
    requires s != {}
    ensures exists k :: IsLeast(k, s)
    ensures forall k, l | IsLeast(k, s) && IsLeast(l, s) :: k == l
  {
    var k := LeastExists(s);
    forall k, l | IsLeast(k, s) && IsLeast(l, s) ensures k == l { StrLeTotal(k, l); }
  }

  function Least(s: set<string>): (k: string)
    requires s != {}
    ensures IsLeast(k, s)
  {
    LeastIsUnique(s);
    assert exists k :: k in s && IsLeast(k, s) by { var k :| IsLeast(k, s); assert k in s; }
    var k :| k in s && IsLeast(k, s);
    k
  }

  ghost predicate Ascending(ks: seq<string>) {
    forall i, j | 0 <= i < j < |ks| :: StrLe(ks[i], ks[j]) && ks[i] != ks[j]
  }

  function KeySet(ks: seq<string>): set<string> {
    set k | k in ks
  }

  function SortedKeys(s: set<string>): (ks: seq<string>)
    ensures KeySet(ks) == s
    ensures Ascending(ks)
    ensures |ks| == |s|
  {
    if s == {} then []
    else
      var k := Least(s);
      var rest := SortedKeys(s - {k});
      LeastFirst(k, s, rest);
      [k] + rest
  }

  lemma LeastFirst(k: string, s: set<string>, rest: seq<string>)
    requires IsLeast(k, s) && KeySet(rest) == s - {k} && Ascending(rest)
    ensures KeySet([k] + rest) == s && Ascending([k] + rest)
  {
    var ks := [k] + rest;
    forall x | x in s ensures x in ks {
      if x != k { assert x in KeySet(rest); }
    }
    assert forall x | x in rest :: x in KeySet(rest);
  }

  // `sorted(keys)`, for loops over the keys of a dict.
  method Sorted(keys: set<string>) returns (ks: seq<string>)
    ensures ks == SortedKeys(keys)
    ensures forall k :: k in ks <==> k in keys
    ensures forall i, j | 0 <= i < j < |ks| :: ks[i] != ks[j]
  {
    ks := SortedKeys(keys);
    assert forall k :: k in ks <==> k in KeySet(ks);
  }

  // There is only one way to list a set in ascending order.
  lemma {:induction false} AscendingIsUnique(a: seq<string>, b: seq<string>)
    requires Ascending(a) && Ascending(b) && KeySet(a) == KeySet(b)
    ensures a == b
  {
    assert a != [] ==> a[0] in KeySet(a);
    assert b != [] ==> b[0] in KeySet(b);
    if a != [] {
      assert a[0] == b[0] by {
        StrLeTotal(a[0], b[0]);
        StrLeTotal(a[0], a[0]);
        var i :| 0 <= i < |b| && b[i] == a[0];
        var j :| 0 <= j < |a| && a[j] == b[0];
      }
      TailKeys(a);
      TailKeys(b);
      AscendingIsUnique(a[1..], b[1..]);
      assert a == [a[0]] + a[1..] && b == [b[0]] + b[1..];
    }
  }

  lemma TailKeys(a: seq<string>)
    requires Ascending(a) && a != []
    ensures Ascending(a[1..])
    ensures KeySet(a[1..]) == KeySet(a) - {a[0]}
  {
  }

  // ---- Printing ----------------------------------------------------------------------------

  function Digit(d: nat): (c: char)
    requires d < 10
    ensures '0' <= c <= '9'
  {
    '0' + d as char
  }

  predicate IsDigit(c: char) { '0' <= c <= '9' }

  function PrintNat(n: nat): string {
    if n < 10 then [Digit(n)] else PrintNat(n / 10) + [Digit(n % 10)]
  }

  function PrintInt(n: int): string {
    if n < 0 then "-" + PrintNat(-n) else PrintNat(n)
  }

  function HexDigit(d: nat): char
    requires d < 16
  {
    if d < 10 then '0' + d as char else 'a' + (d - 10) as char
  }

  // Only the quote, the backslash and the C0 controls are escaped; everything else is literal.
  function EscapeChar(c: char): string {
    if c == '"' then "\\\""
    else if c == '\\' then "\\\\"
    else if c == '\n' then "\\n"
    else if c == '\r' then "\\r"
    else if c == '\t' then "\\t"
    else if c as int == 8 then "\\b"
    else if c as int == 12 then "\\f"
    else if c as int < 32 then "\\u00" + [HexDigit(c as int / 16), HexDigit(c as int % 16)]
    else [c]
  }

  function Escape(s: string): string {
    if s == "" then "" else EscapeChar(s[0]) + Escape(s[1..])
  }

  function Quote(s: string): string {
    "\"" + Escape(s) + "\""
  }

  // `",".join(texts)`
  function Join(texts: seq<string>): string {
    if texts == [] then ""
    else if |texts| == 1 then texts[0]
    else texts[0] + "," + Join(texts[1..])
  }

  function Print(v: Json): string
    decreases v
  {
    match v
    case Null => "null"
    case Bool(b) => if b then "true" else "false"
    case Int(n) => PrintInt(n)
    case Str(s) => Quote(s)
    case Arr(items) => "[" + Join(PrintItems(items)) + "]"
    case Obj(fields) => "{" + Join(PrintMembers(v, SortedKeys(fields.Keys))) + "}"
  }

  function PrintItems(items: seq<Json>): (texts: seq<string>)
    ensures |texts| == |items|
    decreases items
  {
    if items == [] then [] else [Print(items[0])] + PrintItems(items[1..])
  }

  function PrintMembers(v: Json, ks: seq<string>): (texts: seq<string>)
    requires v.Obj? && forall k | k in ks :: k in v.fields
    ensures |texts| == |ks|
    decreases v, |ks|
  {
    if ks == [] then []
    else [Quote(ks[0]) + ":" + Print(v.fields[ks[0]])] + PrintMembers(v, ks[1..])
  }

  // ---- A parser for the compact form ---------------------------------------------------------

  datatype Parsed<+T> = Parsed(value: T, rest: string)

  function DigitValue(c: char): nat
    requires IsDigit(c)
  {
    c as int - '0' as int
  }

  function NatOf(digits: string): nat
    requires forall c | c in digits :: IsDigit(c)
  {
    if digits == "" then 0
    else 10 * NatOf(digits[..|digits| - 1]) + DigitValue(digits[|digits| - 1])
  }

  // The number of leading digits of `s`.
  function DigitRun(s: string): (n: nat)
    ensures n <= |s| && forall c | c in s[..n] :: IsDigit(c)
    ensures n < |s| ==> !IsDigit(s[n])
  {
    if s == "" || !IsDigit(s[0]) then 0
    else
      var n := 1 + DigitRun(s[1..]);
      assert s[..n] == [s[0]] + s[1..][..n - 1];
      n
  }

  // Section 6: no leading zeros.
  function ParseNat(s: string): (r: Option<Parsed<nat>>)
    ensures r.Some? ==> |r.value.rest| < |s|
  {
    var n := DigitRun(s);
    if n == 0 || (n > 1 && s[0] == '0') then None else Some(Parsed(NatOf(s[..n]), s[n..]))
  }

  function HexValue(c: char): Option<nat> {
    if IsDigit(c) then Some(DigitValue(c))
    else if 'a' <= c <= 'f' then Some(10 + (c as int - 'a' as int))
    else if 'A' <= c <= 'F' then Some(10 + (c as int - 'A' as int))
    else None
  }

  // The code point written by four hex digits; surrogates stand for no character on their own.
  function ParseHex4(s: string): Option<char> {
    if |s| < 4 then None
    else
      match (HexValue(s[0]), HexValue(s[1]), HexValue(s[2]), HexValue(s[3]))
      case (Some(a), Some(b), Some(c), Some(d)) =>
        var n := ((a * 16 + b) * 16 + c) * 16 + d;
        if n < 0xD800 || 0xE000 <= n < 0x10000 then Some(n as char) else None
      case _ => None
  }

  // One character of a string body.
  function ParseChar(s: string): (r: Option<Parsed<char>>)
    ensures r.Some? ==> |r.value.rest| < |s|
  {
    if s == "" || s[0] == '"' || s[0] as int < 32 then None
    else if s[0] != '\\' then Some(Parsed(s[0], s[1..]))
    else if |s| < 2 then None
    else if s[1] == 'u' then
      match ParseHex4(s[2..])
      case Some(c) => Some(Parsed(c, s[6..]))
      case None => None
    else
      match s[1]
      case '"' => Some(Parsed('"', s[2..]))
      case '\\' => Some(Parsed('\\', s[2..]))
      case '/' => Some(Parsed('/', s[2..]))
      case 'n' => Some(Parsed('\n', s[2..]))
      case 'r' => Some(Parsed('\r', s[2..]))
      case 't' => Some(Parsed('\t', s[2..]))
      case 'b' => Some(Parsed(8 as char, s[2..]))
      case 'f' => Some(Parsed(12 as char, s[2..]))
      case _ => None
  }

  // A string body, up to and including the closing quote.
  function ParseString(s: string): (r: Option<Parsed<string>>)
    ensures r.Some? ==> |r.value.rest| < |s|
    decreases |s|
  {
    if s != "" && s[0] == '"' then Some(Parsed("", s[1..]))
    else
      match ParseChar(s)
      case None => None
      case Some(p) =>
        match ParseString(p.rest)
        case None => None
        case Some(q) => Some(Parsed([p.value] + q.value, q.rest))
  }

  predicate StartsWith(s: string, prefix: string) {
    |prefix| <= |s| && s[..|prefix|] == prefix
  }

  // The texts of a fixed length: the three words and the two empty containers.
  function ParseWord(s: string): (r: Option<Parsed<Json>>)
    ensures r.Some? ==> |r.value.rest| < |s|
  {
    if StartsWith(s, "null") then Some(Parsed(Null, s[4..]))
    else if StartsWith(s, "true") then Some(Parsed(Bool(true), s[4..]))
    else if StartsWith(s, "false") then Some(Parsed(Bool(false), s[5..]))
    else if StartsWith(s, "[]") then Some(Parsed(Arr([]), s[2..]))
    else if StartsWith(s, "{}") then Some(Parsed(Obj(map[]), s[2..]))
    else None
  }

  function ParseNumber(s: string): (r: Option<Parsed<Json>>)
    ensures r.Some? ==> |r.value.rest| < |s|
  {
    if s != "" && s[0] == '-' then
      match ParseNat(s[1..])
      case None => None
      case Some(p) => Some(Parsed(Int(0 - p.value), p.rest))
    else
      match ParseNat(s)
      case None => None
      case Some(p) => Some(Parsed(Int(p.value), p.rest))
  }

  function ParseValue(s: string): (r: Option<Parsed<Json>>)
    ensures r.Some? ==> |r.value.rest| < |s|
    decreases |s|, 0
  {
    if ParseWord(s).Some? then ParseWord(s)
    else if s == "" then None
    else if s[0] == '"' then
      match ParseString(s[1..])
      case None => None
      case Some(p) => Some(Parsed(Str(p.value), p.rest))
    else if s[0] == '[' then
      match ParseItems(s[1..])
      case None => None
      case Some(p) => Some(Parsed(Arr(p.value), p.rest))
    else if s[0] == '{' then
      match ParseMembers(s[1..])
      case None => None
      case Some(p) => Some(Parsed(Obj(p.value), p.rest))
    else ParseNumber(s)
  }

  // At least one value, up to and including the closing bracket.
  function ParseItems(s: string): (r: Option<Parsed<seq<Json>>>)
    ensures r.Some? ==> |r.value.rest| < |s|
    decreases |s|, 1
  {
    match ParseValue(s)
    case None => None
    case Some(p) =>
      if p.rest == "" then None
      else if p.rest[0] == ']' then Some(Parsed([p.value], p.rest[1..]))
      else if p.rest[0] != ',' then None
      else
        match ParseItems(p.rest[1..])
        case None => None
        case Some(q) => Some(Parsed([p.value] + q.value, q.rest))
  }

  // At least one member, up to and including the closing brace; the last of equal keys wins.
  function ParseMembers(s: string): (r: Option<Parsed<Dict>>)
    ensures r.Some? ==> |r.value.rest| < |s|
    decreases |s|, 1
  {
    if s == "" || s[0] != '"' then None
    else
      match ParseString(s[1..])
      case None => None
      case Some(k) =>
        if k.rest == "" || k.rest[0] != ':' then None
        else
          match ParseValue(k.rest[1..])
          case None => None
          case Some(p) =>
            if p.rest == "" then None
            else if p.rest[0] == '}' then Some(Parsed(map[k.value := p.value], p.rest[1..]))
            else if p.rest[0] != ',' then None
            else
              match ParseMembers(p.rest[1..])
              case None => None
              case Some(q) => Some(Parsed(map[k.value := p.value] + q.value, q.rest))
  }

  // A whole text.
  function Parse(s: string): Option<Json> {
    match ParseValue(s)
    case Some(p) => if p.rest == "" then Some(p.value) else None
    case None => None
  }

  // ---- The parser undoes the printer ----------------------------------------------------------

  // No printed number runs on into what follows it.
  predicate Delimited(rest: string) {
    rest == "" || !IsDigit(rest[0])
  }

  lemma {:induction false} PrintNatDigits(n: nat)
    ensures PrintNat(n) != "" && forall c | c in PrintNat(n) :: IsDigit(c)
    ensures NatOf(PrintNat(n)) == n
    ensures PrintNat(n)[0] == '0' ==> n == 0 && |PrintNat(n)| == 1
  {
    var text := PrintNat(n);
    if n < 10 {
      assert text[..0] == "";
    } else {
      PrintNatDigits(n / 10);
      assert text[..|text| - 1] == PrintNat(n / 10) && text[|text| - 1] == Digit(n % 10);
      assert text[0] == PrintNat(n / 10)[0];
    }
  }

  lemma {:induction false} DigitRunStops(digits: string, rest: string)
    requires forall c | c in digits :: IsDigit(c)
    requires Delimited(rest)
    ensures DigitRun(digits + rest) == |digits|
  {
    if digits == "" {
      assert digits + rest == rest;
    } else {
      assert (digits + rest)[1..] == digits[1..] + rest;
      assert digits[0] in digits;
      DigitRunStops(digits[1..], rest);
    }
  }

  lemma NatRoundTrip(n: nat, rest: string)
    requires Delimited(rest)
    ensures ParseNat(PrintNat(n) + rest) == Some(Parsed(n, rest))
  {
    PrintNatDigits(n);
    DigitRunStops(PrintNat(n), rest);
    var s := PrintNat(n) + rest;
    assert s[..|PrintNat(n)|] == PrintNat(n) && s[|PrintNat(n)|..] == rest;
  }

  lemma NotAWord(s: string)
    requires s != "" && s[0] !in "ntf"
    requires s[0] in "[{" ==> |s| >= 2 && s[1] !in "]}"
    ensures ParseWord(s) == None
  {
  }

  lemma NumberRoundTrip(n: int, rest: string)
    requires Delimited(rest)
    ensures ParseNumber(PrintInt(n) + rest) == Some(Parsed(Int(n), rest))
    ensures PrintInt(n) != "" && (PrintInt(n)[0] == '-' || IsDigit(PrintInt(n)[0]))
  {
    var digits := PrintNat(if n < 0 then -n else n);
    PrintNatDigits(if n < 0 then -n else n);
    NatRoundTrip(if n < 0 then -n else n, rest);
    assert digits[0] in digits;
    NumberText(digits, n, rest);
  }

  lemma NumberText(digits: string, n: int, rest: string)
    requires ParseNat(digits + rest) == Some(Parsed(if n < 0 then -n else n, rest))
    requires digits != "" && IsDigit(digits[0])
    ensures ParseNumber((if n < 0 then "-" else "") + digits + rest) == Some(Parsed(Int(n), rest))
  {
    var s := (if n < 0 then "-" else "") + digits + rest;
    if n < 0 {
      assert s[1..] == digits + rest;
    } else {
      assert s == digits + rest;
    }
  }

  lemma CharRoundTrip(c: char, rest: string)
    ensures ParseChar(EscapeChar(c) + rest) == Some(Parsed(c, rest))
    ensures EscapeChar(c)[0] != '"'
  {
  }

  lemma {:induction false} StringRoundTrip(t: string, rest: string)
    ensures ParseString(Escape(t) + "\"" + rest) == Some(Parsed(t, rest))
  {
    var s := Escape(t) + "\"" + rest;
    if t == "" {
      assert s == "\"" + rest;
      assert s[1..] == rest;
    } else {
      var tail := Escape(t[1..]) + "\"" + rest;
      assert s == EscapeChar(t[0]) + tail;
      CharRoundTrip(t[0], tail);
      StringRoundTrip(t[1..], rest);
      assert [t[0]] + t[1..] == t;
    }
  }

  lemma PrintHead(v: Json)
    ensures Print(v) != "" && Print(v)[0] !in "]},"
  {
    if v.Int? { NumberRoundTrip(v.n, ""); }
  }

  lemma {:induction false} ValueRoundTrip(v: Json, rest: string)
    requires Delimited(rest)
    ensures ParseValue(Print(v) + rest) == Some(Parsed(v, rest))
    decreases v, 2
  {
    match v
    case Null => WordRoundTrip(v, rest);
    case Bool(b) => WordRoundTrip(v, rest);
    case Int(n) =>
      NumberRoundTrip(n, rest);
      ParseAsNumber(PrintInt(n) + rest);
    case Str(t) =>
      StringRoundTrip(t, rest);
      Enclosed("\"", Escape(t), "\"", rest);
      ParseQuoted("\"" + Escape(t) + "\"" + rest, Escape(t) + "\"" + rest, t, rest);
    case Arr(items) => ArrayRoundTrip(v, rest);
    case Obj(fields) => ObjectRoundTrip(v, rest);
  }

  lemma WordRoundTrip(v: Json, rest: string)
    requires v.Null? || v.Bool?
    ensures ParseValue(Print(v) + rest) == Some(Parsed(v, rest))
  {
    var s := Print(v) + rest;
    assert s[|Print(v)|..] == rest && s[..|Print(v)|] == Print(v);
    assert v == Bool(false) ==> s[..4] == "fals";
  }

  lemma ParseAsNumber(s: string)
    requires s != "" && (s[0] == '-' || IsDigit(s[0]))
    ensures ParseValue(s) == ParseNumber(s)
  {
    NotAWord(s);
  }

  lemma ParseQuoted(s: string, tail: string, t: string, rest: string)
    requires s != "" && s[0] == '"' && s[1..] == tail
    requires ParseString(tail) == Some(Parsed(t, rest))
    ensures ParseValue(s) == Some(Parsed(Str(t), rest))
  {
    NotAWord(s);
  }

  lemma {:induction false} ArrayRoundTrip(v: Json, rest: string)
    requires v.Arr?
    ensures ParseValue(Print(v) + rest) == Some(Parsed(v, rest))
    decreases v, 1
  {
    var body := Join(PrintItems(v.items));
    var s := "[" + body + "]" + rest;
    Enclosed("[", body, "]", rest);
    if v.items == [] {
      EmptyArrayText(body, rest);
    } else {
      ItemsRoundTrip(v.items, rest);
      PrintHead(v.items[0]);
      JoinHead(PrintItems(v.items));
      NotAWord(s);
      ParseBracketed(s, body + "]" + rest, v.items, rest);
    }
  }

  lemma EmptyArrayText(body: string, rest: string)
    requires body == ""
    ensures ParseValue("[" + body + "]" + rest) == Some(Parsed(Arr([]), rest))
  {
    var s := "[" + body + "]" + rest;
    assert s[..2] == "[]" && s[2..] == rest && s[0] == '[';
    WordAt(s);
  }

  lemma ParseBracketed(s: string, tail: string, items: seq<Json>, rest: string)
    requires ParseWord(s) == None && s != "" && s[0] == '[' && s[1..] == tail
    requires ParseItems(tail) == Some(Parsed(items, rest))
    ensures ParseValue(s) == Some(Parsed(Arr(items), rest))
  {
  }

  lemma WordAt(s: string)
    requires |s| >= 2 && s[0] in "[{"
    ensures !StartsWith(s, "null") && !StartsWith(s, "true") && !StartsWith(s, "false")
  {
  }

  lemma {:induction false} ObjectRoundTrip(v: Json, rest: string)
    requires v.Obj?
    ensures ParseValue(Print(v) + rest) == Some(Parsed(v, rest))
    decreases v, 1
  {
    var ks := SortedKeys(v.fields.Keys);
    AllFields(v, ks);
    if ks != [] { MembersRoundTrip(v, ks, rest); }
    BracedMembers(v, ks, rest);
  }

  lemma BracedMembers(v: Json, ks: seq<string>, rest: string)
    requires v.Obj? && (forall k | k in ks :: k in v.fields) && FieldsAt(v, ks) == v.fields
    requires ks != [] ==>
      ParseMembers(Join(PrintMembers(v, ks)) + "}" + rest) == Some(Parsed(v.fields, rest))
    ensures ParseValue("{" + Join(PrintMembers(v, ks)) + "}" + rest) == Some(Parsed(v, rest))
  {
    var body := Join(PrintMembers(v, ks));
    if ks == [] {
      assert v.fields == map[];
      EmptyObjectText(body, rest);
    } else {
      MembersHead(v, ks);
      ObjectText(body, v.fields, rest);
    }
  }

  lemma MembersHead(v: Json, ks: seq<string>)
    requires v.Obj? && ks != [] && forall k | k in ks :: k in v.fields
    ensures Join(PrintMembers(v, ks)) != "" && Join(PrintMembers(v, ks))[0] == '"'
  {
  }

  function FieldsAt(v: Json, ks: seq<string>): Dict
    requires v.Obj? && forall k | k in ks :: k in v.fields
  {
    map k | k in ks :: v.fields[k]
  }

  lemma AllFields(v: Json, ks: seq<string>)
    requires v.Obj? && KeySet(ks) == v.fields.Keys
    ensures (forall k | k in ks :: k in v.fields) && FieldsAt(v, ks) == v.fields
    ensures ks == [] ==> v.fields == map[]
  {
  }

  lemma FieldsCons(v: Json, ks: seq<string>)
    requires v.Obj? && ks != [] && forall k | k in ks :: k in v.fields
    ensures FieldsAt(v, ks) == map[ks[0] := v.fields[ks[0]]] + FieldsAt(v, ks[1..])
  {
  }

  lemma EmptyObjectText(body: string, rest: string)
    requires body == ""
    ensures ParseValue("{" + body + "}" + rest) == Some(Parsed(Obj(map[]), rest))
  {
    var s := "{" + body + "}" + rest;
    assert s[..2] == "{}" && s[2..] == rest && s[0] == '{';
    WordAt(s);
  }

  lemma ObjectText(body: string, fields: Dict, rest: string)
    requires ParseMembers(body + "}" + rest) == Some(Parsed(fields, rest))
    requires body != "" && body[0] == '"'
    ensures ParseValue("{" + body + "}" + rest) == Some(Parsed(Obj(fields), rest))
  {
    var s := "{" + body + "}" + rest;
    Enclosed("{", body, "}", rest);
    NotAWord(s);
    ParseBraced(s, body + "}" + rest, fields, rest);
  }

  lemma ParseBraced(s: string, tail: string, fields: Dict, rest: string)
    requires ParseWord(s) == None && s != "" && s[0] == '{' && s[1..] == tail
    requires ParseMembers(tail) == Some(Parsed(fields, rest))
    ensures ParseValue(s) == Some(Parsed(Obj(fields), rest))
  {
  }

  lemma Enclosed(left: string, body: string, right: string, rest: string)
    requires |left| == |right| == 1
    ensures var s := left + body + right + rest;
      && s != "" && s[0] == left[0] && s[1..] == body + right + rest
      && (body != "" ==> |s| >= 2 && s[1] == body[0])
  {
  }

  lemma JoinHead(texts: seq<string>)
    requires texts != [] && texts[0] != ""
    ensures Join(texts) != "" && Join(texts)[0] == texts[0][0]
  {
  }

  lemma {:induction false} ItemsRoundTrip(items: seq<Json>, rest: string)
    requires items != []
    ensures ParseItems(Join(PrintItems(items)) + "]" + rest) == Some(Parsed(items, rest))
    decreases items
  {
    assert items == [items[0]] + items[1..];
    if |items| == 1 {
      assert items == [items[0]];
      ValueRoundTrip(items[0], "]" + rest);
      LastItem(Print(items[0]), items[0], rest);
    } else {
      var tail := Join(PrintItems(items[1..]));
      ItemsRoundTrip(items[1..], rest);
      ValueRoundTrip(items[0], "," + (tail + "]" + rest));
      FirstItem(Print(items[0]), items[0], tail, items[1..], rest);
      JoinItems(items);
      RegroupItems(Print(items[0]), tail, rest);
    }
  }

  lemma JoinItems(items: seq<Json>)
    requires |items| > 1
    ensures Join(PrintItems(items)) == Print(items[0]) + "," + Join(PrintItems(items[1..]))
  {
  }

  lemma RegroupItems(text: string, tail: string, rest: string)
    ensures text + "," + tail + "]" + rest == text + ("," + (tail + "]" + rest))
  {
  }

  lemma LastItem(text: string, item: Json, rest: string)
    requires ParseValue(text + ("]" + rest)) == Some(Parsed(item, "]" + rest))
    ensures ParseItems(text + "]" + rest) == Some(Parsed([item], rest))
  {
    assert ("]" + rest)[1..] == rest;
    ParseItemsEnd(text + ("]" + rest), item, "]" + rest, rest);
    assert text + "]" + rest == text + ("]" + rest);
  }

  lemma ParseItemsEnd(s: string, item: Json, s1: string, rest: string)
    requires ParseValue(s) == Some(Parsed(item, s1)) && s1 != "" && s1[0] == ']' && s1[1..] == rest
    ensures ParseItems(s) == Some(Parsed([item], rest))
  {
  }

  lemma FirstItem(text: string, item: Json, tail: string, others: seq<Json>, rest: string)
    requires ParseValue(text + ("," + (tail + "]" + rest))) == Some(Parsed(item, "," + (tail + "]" + rest)))
    requires ParseItems(tail + "]" + rest) == Some(Parsed(others, rest))
    ensures ParseItems(text + ("," + (tail + "]" + rest))) == Some(Parsed([item] + others, rest))
  {
  }

  lemma {:induction false} MembersRoundTrip(v: Json, ks: seq<string>, rest: string)
    requires v.Obj? && ks != [] && forall k | k in ks :: k in v.fields
    ensures ParseMembers(Join(PrintMembers(v, ks)) + "}" + rest) == Some(Parsed(FieldsAt(v, ks), rest))
    decreases v, 0, |ks|
  {
    var field := v.fields[ks[0]];
    if |ks| == 1 {
      ValueRoundTrip(field, "}" + rest);
      LastMember(ks[0], Print(field), field, rest);
      FieldsCons(v, ks);
      assert FieldsAt(v, ks) == map[ks[0] := field];
    } else {
      MembersRoundTrip(v, ks[1..], rest);
      var tail := Join(PrintMembers(v, ks[1..]));
      ValueRoundTrip(field, "," + (tail + "}" + rest));
      FirstMember(ks[0], Print(field), field, tail, FieldsAt(v, ks[1..]), rest);
      JoinMembers(v, ks);
      Regroup(Quote(ks[0]), Print(field), tail, rest);
      FieldsCons(v, ks);
    }
  }

  lemma JoinMembers(v: Json, ks: seq<string>)
    requires v.Obj? && |ks| > 1 && forall k | k in ks :: k in v.fields
    ensures Join(PrintMembers(v, ks)) ==
      Quote(ks[0]) + ":" + Print(v.fields[ks[0]]) + "," + Join(PrintMembers(v, ks[1..]))
  {
  }

  lemma Regroup(quoted: string, text: string, tail: string, rest: string)
    ensures quoted + ":" + text + "," + tail + "}" + rest == quoted + ":" + (text + ("," + (tail + "}" + rest)))
  {
  }

  lemma MemberKey(key: string, text: string)
    ensures var s := Quote(key) + ":" + text;
      s[0] == '"' && ParseString(s[1..]) == Some(Parsed(key, ":" + text))
  {
    var s := Quote(key) + ":" + text;
    assert s[1..] == Escape(key) + "\"" + (":" + text);
    StringRoundTrip(key, ":" + text);
  }

  lemma LastMember(key: string, text: string, field: Json, rest: string)
    requires ParseValue(text + ("}" + rest)) == Some(Parsed(field, "}" + rest))
    ensures ParseMembers(Quote(key) + ":" + text + "}" + rest) == Some(Parsed(map[key := field], rest))
  {
    MemberKey(key, text + ("}" + rest));
    RegroupLast(Quote(key), text, rest);
    assert (":" + (text + ("}" + rest)))[1..] == text + ("}" + rest);
    assert ("}" + rest)[1..] == rest;
    ParseMembersEnd(
      Quote(key) + ":" + (text + ("}" + rest)), key, ":" + (text + ("}" + rest)), field, "}" + rest, rest);
  }

  lemma RegroupLast(quoted: string, text: string, rest: string)
    ensures quoted + ":" + text + "}" + rest == quoted + ":" + (text + ("}" + rest))
  {
  }

  lemma ParseMembersEnd(s: string, key: string, s1: string, field: Json, s2: string, rest: string)
    requires s != "" && s[0] == '"' && ParseString(s[1..]) == Some(Parsed(key, s1))
    requires s1 != "" && s1[0] == ':' && ParseValue(s1[1..]) == Some(Parsed(field, s2))
    requires s2 != "" && s2[0] == '}' && s2[1..] == rest
    ensures ParseMembers(s) == Some(Parsed(map[key := field], rest))
  {
  }

  lemma FirstMember(key: string, text: string, field: Json, tail: string, others: Dict, rest: string)
    requires ParseValue(text + ("," + (tail + "}" + rest))) == Some(Parsed(field, "," + (tail + "}" + rest)))
    requires ParseMembers(tail + "}" + rest) == Some(Parsed(others, rest))
    ensures ParseMembers(Quote(key) + ":" + (text + ("," + (tail + "}" + rest)))) ==
      Some(Parsed(map[key := field] + others, rest))
  {
    var after := "," + (tail + "}" + rest);
    MemberKey(key, text + after);
    assert (":" + (text + after))[1..] == text + after;
    assert after[1..] == tail + "}" + rest;
    ParseMembersStep(Quote(key) + ":" + (text + after), key, ":" + (text + after), field, after, others, rest);
  }

  lemma ParseMembersStep(s: string, key: string, s1: string, field: Json, s2: string, others: Dict, rest: string)
    requires s != "" && s[0] == '"' && ParseString(s[1..]) == Some(Parsed(key, s1))
    requires s1 != "" && s1[0] == ':' && ParseValue(s1[1..]) == Some(Parsed(field, s2))
    requires s2 != "" && s2[0] == ',' && ParseMembers(s2[1..]) == Some(Parsed(others, rest))
    ensures ParseMembers(s) == Some(Parsed(map[key := field] + others, rest))
  {
  }

  // Main result: the text determines the value.
  lemma ParsePrint(v: Json)
    ensures Parse(Print(v)) == Some(v)
  {
    ValueRoundTrip(v, "");
    assert Print(v) + "" == Print(v);
  }

  // Distinct values never share a text, not even `true` and `1`, which Python calls equal.
  lemma PrintIsInjective(a: Json, b: Json)
    ensures Print(a) == Print(b) <==> a == b
  {
    ParsePrint(a);
    ParsePrint(b);
  }

  lemma {:induction false} DigitsReadBack(n: nat)
    ensures PrintNat(n) != "" && DigitsOfText(PrintNat(n)) == Some(n)
    ensures forall i | 0 <= i < |PrintNat(n)| :: IsDigit(PrintNat(n)[i])
  {
    if n >= 10 {
      DigitsReadBack(n / 10);
      var s := PrintNat(n);
      assert s[..|s| - 1] == PrintNat(n / 10) && s[|s| - 2] == PrintNat(n / 10)[|s| - 2];
    }
  }

  lemma IntTextReadsBack(n: int)
    ensures var s := PrintInt(n);
      IntOfText(s) == Some(n) && s != "" && (s[0] == '-' || IsDigit(s[0])) && IsDigit(s[|s| - 1])
  {
    DigitsReadBack(if n < 0 then -n else n);
    hide DigitsOfText, PrintNat;
    assert n < 0 ==> PrintInt(n)[1..] == PrintNat(-n);
  }

  // Python's `int(...)` of a printed integer is that integer.
  lemma IntReadsBack(n: int)
    ensures ToInt(Str(PrintInt(n))) == Some(n)
  {
    IntTextReadsBack(n);
    hide IntOfText, PrintInt;
  }

  // ---- Python values in insertion order ------------------------------------------------------

  // What `json.dumps` is given: a dict holds its items in insertion order.
  datatype PyValue =
    | PyNull
    | PyBool(b: bool)
    | PyInt(n: int)
    | PyStr(s: string)
    | PyList(elems: seq<PyValue>)
    | PyDict(items: seq<Item>)

  datatype Item = Item(key: string, value: PyValue)

  function Keys(items: seq<Item>): (ks: seq<string>)
    ensures |ks| == |items| && forall i | 0 <= i < |ks| :: ks[i] == items[i].key
  {
    if items == [] then [] else [items[0].key] + Keys(items[1..])
  }

  ghost predicate DistinctKeys(items: seq<Item>) {
    forall i, j | 0 <= i < j < |items| :: items[i].key != items[j].key
  }

  // A dict has each key once, at every depth.
  ghost predicate WellFormed(d: PyValue) {
    match d
    case PyList(elems) => forall e | e in elems :: WellFormed(e)
    case PyDict(items) => DistinctKeys(items) && forall x | x in items :: WellFormed(x.value)
    case _ => true
  }

  // The value without the order.
  function Value(d: PyValue): Json
    decreases d
  {
    match d
    case PyNull => Null
    case PyBool(b) => Bool(b)
    case PyInt(n) => Int(n)
    case PyStr(s) => Str(s)
    case PyList(elems) => Arr(Values(elems))
    case PyDict(items) => Obj(FieldsOf(items))
  }

  function Values(elems: seq<PyValue>): (vs: seq<Json>)
    decreases elems
  {
    if elems == [] then [] else [Value(elems[0])] + Values(elems[1..])
  }

  function FieldsOf(items: seq<Item>): Dict
    decreases items
  {
    if items == [] then map[] else map[items[0].key := Value(items[0].value)] + FieldsOf(items[1..])
  }

  // `sorted(dct.items())`; with distinct keys only the keys are ever compared.
  function SortItems(items: seq<Item>): (r: seq<Item>)
    ensures forall x :: x in r <==> x in items
  {
    if items == [] then [] else Insert(items[0], SortItems(items[1..]))
  }

  function Insert(x: Item, sorted: seq<Item>): (r: seq<Item>)
    ensures forall y :: y in r <==> y == x || y in sorted
  {
    if sorted == [] then [x]
    else if StrLe(x.key, sorted[0].key) then [x] + sorted
    else [sorted[0]] + Insert(x, sorted[1..])
  }

  // `json.dumps(value, sort_keys=True, separators=(",", ":"), ensure_ascii=False)`
  function Dumps(d: PyValue): string
    decreases d
  {
    match d
    case PyNull => "null"
    case PyBool(b) => if b then "true" else "false"
    case PyInt(n) => PrintInt(n)
    case PyStr(s) => Quote(s)
    case PyList(elems) => "[" + Join(DumpsAll(elems)) + "]"
    case PyDict(items) => "{" + Join(DumpsMembers(d, SortItems(items))) + "}"
  }

  function DumpsAll(elems: seq<PyValue>): seq<string>
    decreases elems
  {
    if elems == [] then [] else [Dumps(elems[0])] + DumpsAll(elems[1..])
  }

  function DumpsMembers(d: PyValue, sorted: seq<Item>): seq<string>
    requires d.PyDict? && forall x | x in sorted :: x in d.items
    decreases d, |sorted|
  {
    if sorted == [] then []
    else
      assert sorted[0] in d.items;
      [Quote(sorted[0].key) + ":" + Dumps(sorted[0].value)] + DumpsMembers(d, sorted[1..])
  }

  lemma ConsAscending(k: string, ks: seq<string>)
    requires Ascending(ks) && forall l | l in ks :: StrLe(k, l) && k != l
    ensures Ascending([k] + ks) && KeySet([k] + ks) == {k} + KeySet(ks)
  {
  }

  lemma {:induction false} InsertKeepsAscending(x: Item, sorted: seq<Item>)
    requires Ascending(Keys(sorted)) && x.key !in Keys(sorted)
    ensures Ascending(Keys(Insert(x, sorted)))
    ensures KeySet(Keys(Insert(x, sorted))) == {x.key} + KeySet(Keys(sorted))
  {
    var ks := Keys(sorted);
    if sorted == [] {
      assert Keys([x]) == [x.key];
    } else {
      StrLeTotal(x.key, sorted[0].key);
      assert ks == [sorted[0].key] + ks[1..] && ks[1..] == Keys(sorted[1..]);
      TailKeys(ks);
      if StrLe(x.key, sorted[0].key) {
        forall k | k in ks ensures StrLe(x.key, k) {
          if k != sorted[0].key { StrLeTransitive(x.key, sorted[0].key, k); }
        }
        ConsAscending(x.key, ks);
        assert Keys([x] + sorted) == [x.key] + ks;
      } else {
        InsertKeepsAscending(x, sorted[1..]);
        var rest := Insert(x, sorted[1..]);
        HeadBelow(x.key, sorted[0].key, ks, Keys(rest));
        ConsAscending(sorted[0].key, Keys(rest));
        assert Keys([sorted[0]] + rest) == [sorted[0].key] + Keys(rest);
      }
    }
  }

  lemma HeadBelow(k: string, head: string, ks: seq<string>, rest: seq<string>)
    requires ks != [] && ks[0] == head && Ascending(ks) && StrLe(head, k) && head != k
    requires KeySet(rest) == {k} + KeySet(ks[1..])
    ensures forall l | l in rest :: StrLe(head, l) && head != l
  {
    forall l | l in rest ensures StrLe(head, l) && head != l {
      assert l in KeySet(rest);
      if l != k {
        assert l in ks[1..];
      }
    }
  }

  lemma {:induction false} SortItemsAscending(items: seq<Item>)
    requires DistinctKeys(items)
    ensures Ascending(Keys(SortItems(items)))
    ensures KeySet(Keys(SortItems(items))) == KeySet(Keys(items))
  {
    if items != [] {
      SortItemsAscending(items[1..]);
      assert items[0].key !in Keys(SortItems(items[1..])) by {
        assert items[0].key !in Keys(items[1..]);
        assert forall k :: k in Keys(items[1..]) <==> k in KeySet(Keys(items[1..]));
        assert forall k :: k in Keys(SortItems(items[1..])) <==> k in KeySet(Keys(SortItems(items[1..])));
      }
      InsertKeepsAscending(items[0], SortItems(items[1..]));
      assert Keys(items) == [items[0].key] + Keys(items[1..]);
    }
  }

  lemma {:induction false} FieldsOfItems(items: seq<Item>)
    requires DistinctKeys(items)
    ensures FieldsOf(items).Keys == KeySet(Keys(items))
    ensures forall x | x in items :: x.key in FieldsOf(items) && FieldsOf(items)[x.key] == Value(x.value)
  {
    if items != [] {
      FieldsOfItems(items[1..]);
      assert Keys(items) == [items[0].key] + Keys(items[1..]);
      assert items[0].key !in Keys(items[1..]);
      assert items[0].key !in FieldsOf(items[1..]);
      forall x | x in items
        ensures x.key in FieldsOf(items) && FieldsOf(items)[x.key] == Value(x.value)
      {
        if x != items[0] { assert x in items[1..]; }
      }
    }
  }

  // The encoder's text is the canonical text of the value, whatever the insertion order.
  lemma {:induction false} DumpsIsPrint(d: PyValue)
    requires WellFormed(d)
    ensures Dumps(d) == Print(Value(d))
    decreases d
  {
    match d
    case PyList(elems) => DumpsAllIsPrint(elems);
    case PyDict(items) =>
      var sorted := SortItems(items);
      SortItemsAscending(items);
      FieldsOfItems(items);
      AscendingIsUnique(Keys(sorted), SortedKeys(FieldsOf(items).Keys));
      assert forall k | k in Keys(sorted) :: k in KeySet(Keys(sorted));
      DumpsMembersIsPrint(d, sorted);
    case _ =>
  }

  lemma {:induction false} DumpsAllIsPrint(elems: seq<PyValue>)
    requires forall e | e in elems :: WellFormed(e)
    ensures DumpsAll(elems) == PrintItems(Values(elems))
    decreases elems
  {
    if elems != [] {
      DumpsIsPrint(elems[0]);
      DumpsAllIsPrint(elems[1..]);
    }
  }

  lemma {:induction false} DumpsMembersIsPrint(d: PyValue, sorted: seq<Item>)
    requires d.PyDict? && WellFormed(d) && forall x | x in sorted :: x in d.items
    requires forall x | x in d.items :: x.key in Value(d).fields && Value(d).fields[x.key] == Value(x.value)
    requires forall k | k in Keys(sorted) :: k in Value(d).fields
    ensures DumpsMembers(d, sorted) == PrintMembers(Value(d), Keys(sorted))
    decreases d, |sorted|
  {
    if sorted != [] {
      assert sorted[0] in d.items;
      DumpsIsPrint(sorted[0].value);
      assert Keys(sorted)[1..] == Keys(sorted[1..]);
      DumpsMembersIsPrint(d, sorted[1..]);
    }
  }

  // Main result: two well-formed Python values have one text exactly when they are the same value
  // up to the insertion order of their dicts.
  lemma DumpsAgreesWithValue(a: PyValue, b: PyValue)
    requires WellFormed(a) && WellFormed(b)
    ensures Dumps(a) == Dumps(b) <==> Value(a) == Value(b)
  {
    DumpsIsPrint(a);
    DumpsIsPrint(b);
    PrintIsInjective(Value(a), Value(b));
  }
}
