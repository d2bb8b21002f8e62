// Values of the JSON columns and request bodies, as Python sees them after decoding.
module Json {
  import opened Text

  datatype Option<+T> = None | Some(value: T) {
    function Or(fallback: T): T { if Some? then value else fallback }
  }

  datatype Result<+T, +E> = Ok(value: T) | Err(error: E)

  // Numbers are integers; a Python dict is a map, and `==` on this type is equality of the
  // decoded values that also tells `true` from `1`.
  datatype Json =
    | Null
    | Bool(b: bool)
    | Int(n: int)
    | Str(s: string)
    | Arr(items: seq<Json>)
    | Obj(fields: map<string, Json>)

  type Dict = map<string, Json>

  // `d.get(key)`: a missing key and an explicit null both read as null.
  function Get(d: Dict, key: string): Json {
    GetOr(d, key, Null)
  }

  // `d.get(key, fallback)`: the fallback replaces a missing key, never an explicit null.
  function GetOr(d: Dict, key: string, fallback: Json): Json {
    if key in d then d[key] else fallback
  }

  // Python's `==` identifies `True` with `1` and `False` with `0`, at every depth.
  function Norm(j: Json): Json {
    match j
    case Bool(b) => Int(if b then 1 else 0)
    case Arr(items) => Arr(seq(|items|, i requires 0 <= i < |items| => Norm(items[i])))
    case Obj(fields) => Obj(map k | k in fields :: Norm(fields[k]))
    case _ => j
  }

  predicate PyEq(a: Json, b: Json) {
    Norm(a) == Norm(b)
  }

  function NumberOf(j: Json): Option<int> {
    match j
    case Bool(b) => Some(if b then 1 else 0)
    case Int(n) => Some(n)
    case _ => None
  }

  // Lists agree item by item and mappings key by key; numbers agree with numbers, and anything else
  // with itself alone.
  lemma EqualityExactly(a: Json, b: Json)
    ensures a.Arr? && b.Arr? ==>
      (PyEq(a, b) <==> |a.items| == |b.items| && forall i | 0 <= i < |a.items| :: PyEq(a.items[i], b.items[i]))
    ensures a.Obj? && b.Obj? ==>
      (PyEq(a, b) <==> a.fields.Keys == b.fields.Keys && forall k | k in a.fields :: PyEq(a.fields[k], b.fields[k]))
    ensures NumberOf(a).Some? ==> (PyEq(a, b) <==> NumberOf(b) == NumberOf(a))
    ensures a.Null? || a.Str? ==> (PyEq(a, b) <==> b == a)
    ensures (a.Arr? || a.Obj?) && PyEq(a, b) ==> (a.Arr? <==> b.Arr?) && (a.Obj? <==> b.Obj?)
  {
    if a.Arr? && b.Arr? { ListsAgree(a, b); }
    if a.Obj? && b.Obj? { MappingsAgree(a, b); }
  }

  lemma ListsAgree(a: Json, b: Json)
    requires a.Arr? && b.Arr?
    ensures PyEq(a, b) <==> |a.items| == |b.items| && forall i | 0 <= i < |a.items| :: PyEq(a.items[i], b.items[i])
  {
    var x, y := Norm(a).items, Norm(b).items;
    assert |x| == |a.items| && |y| == |b.items|;
    assert forall i | 0 <= i < |x| :: x[i] == Norm(a.items[i]);
    assert forall i | 0 <= i < |y| :: y[i] == Norm(b.items[i]);
  }

  lemma MappingsAgree(a: Json, b: Json)
    requires a.Obj? && b.Obj?
    ensures PyEq(a, b) <==>
      a.fields.Keys == b.fields.Keys && forall k | k in a.fields :: PyEq(a.fields[k], b.fields[k])
  {
    var x, y := Norm(a).fields, Norm(b).fields;
    assert x.Keys == a.fields.Keys && y.Keys == b.fields.Keys;
    assert forall k | k in x :: x[k] == Norm(a.fields[k]);
    assert forall k | k in y :: y[k] == Norm(b.fields[k]);
    if x.Keys == y.Keys && forall k | k in x :: x[k] == y[k] { assert x == y; }
  }

  // `bool(value)`
  predicate Truthy(j: Json) {
    match j
    case Null => false
    case Bool(b) => b
    case Int(n) => n != 0
    case Str(s) => s != ""
    case Arr(items) => items != []
    case Obj(fields) => fields != map[]
  }

  // Python takes six values of documents for false.
  lemma FalsyExactly(j: Json)
    ensures !Truthy(j) <==> j in {Null, Bool(false), Int(0), Str(""), Arr([]), Obj(map[])}
  {
  }

  // `int(value)` on a decoded value; None where Python raises.
  function ToInt(j: Json): Option<int> {
    match j
    case Bool(b) => Some(if b then 1 else 0)
    case Int(n) => Some(n)
    case Str(s) => IntOfText(Strip(s))
    case _ => None
  }

  // A sign, if any, and digits.
  function IntOfText(s: string): Option<int> {
    if s != "" && (s[0] == '-' || s[0] == '+') then
      match DigitsOfText(s[1..])
      case Some(n) => var value: int := n; Some(if s[0] == '-' then -value else value)
      case None => None
    else DigitsOfText(s)
  }

  // Digits, with single underscores between them allowed.
  function DigitsOfText(s: string): Option<nat>
    decreases |s|
  {
    var n := |s|;
    if n == 0 || !('0' <= s[n - 1] <= '9') then None
    else
      var digit := (s[n - 1] as int) - ('0' as int);
      if n == 1 then Some(digit)
      else
        match DigitsOfText(if s[n - 2] == '_' then s[..n - 2] else s[..n - 1])
        case Some(high) => Some(10 * high + digit)
        case None => None
  }

  // A number may stand between white space.
  lemma IntOfPadded(left: string, text: string, right: string)
    requires text != "" && !IsSpace(text[0]) && !IsSpace(text[|text| - 1])
    requires (forall i | 0 <= i < |left| :: IsSpace(left[i])) && forall i | 0 <= i < |right| :: IsSpace(right[i])
    ensures ToInt(Str(left + text + right)) == IntOfText(text)
  {
    StripOfPadded(left, text, right);
  }

  // Between digits an underscore makes no difference,
  lemma {:induction false} UnderscoreIsIgnored(a: string, b: string)
    requires a != "" && a[|a| - 1] != '_' && b != "" && b[0] != '_'
    ensures DigitsOfText(a + "_" + b) == DigitsOfText(a + b)
    decreases |b|
  {
    var s, t, m := a + "_" + b, a + b, |b|;
    assert s[|s| - 1] == b[m - 1] == t[|t| - 1];
    if m == 1 {
      assert s[..|s| - 2] == a == t[..|t| - 1];
    } else {
      var fewer := if b[m - 2] == '_' then b[..m - 2] else b[..m - 1];
      assert s[|s| - 2] == b[m - 2] == t[|t| - 2];
      UnderscoreIsIgnored(a, fewer);
      assert s[..|a| + 1 + |fewer|] == a + "_" + fewer && t[..|a| + |fewer|] == a + fewer;
    }
  }

  // and elsewhere there is none, nor any other character.
  lemma {:induction false} DigitsAndUnderscores(s: string)
    requires DigitsOfText(s).Some?
    ensures s != "" && s[0] != '_' && s[|s| - 1] != '_'
    ensures forall i | 0 <= i < |s| :: '0' <= s[i] <= '9' || (s[i] == '_' && s[i - 1] != '_')
    decreases |s|
  {
    var n := |s|;
    if n > 1 { DigitsAndUnderscores(if s[n - 2] == '_' then s[..n - 2] else s[..n - 1]); }
  }

  lemma IntOfOthers(j: Json)
    ensures ToInt(Bool(true)) == Some(1) && ToInt(Bool(false)) == Some(0)
    ensures j.Null? || j.Arr? || j.Obj? ==> ToInt(j) == None
    ensures j.Int? ==> ToInt(j) == Some(j.n)
  {
  }
}
