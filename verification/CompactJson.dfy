// What pins the canonical text besides its parser: no accepted text of a value is shorter, plain
// strings are written as they are, and keys come in code-point order.
module CompactJson {
  import opened Json
  import opened CanonicalJson

  // ---- Strings and numbers -------------------------------------------------------------------------------------

  lemma CharIsCompact(s: string)
    requires ParseChar(s).Some?
    ensures |EscapeChar(ParseChar(s).value.value)| + |ParseChar(s).value.rest| <= |s|
  {
  }

  lemma {:induction false} StringIsCompact(s: string)
    requires ParseString(s).Some?
    ensures |Escape(ParseString(s).value.value)| + 1 + |ParseString(s).value.rest| <= |s|
    decreases |s|
  {
    if s[0] != '"' {
      CharIsCompact(s);
      var p := ParseChar(s).value;
      StringIsCompact(p.rest);
      var text := ParseString(s).value.value;
      assert text[0] == p.value && text[1..] == ParseString(p.rest).value.value;
    }
  }

  lemma {:induction false} DigitsAreCompact(digits: string)
    requires digits != "" && forall c | c in digits :: IsDigit(c)
    ensures |PrintNat(NatOf(digits))| <= |digits|
  {
    var init := digits[..|digits| - 1];
    assert digits[|digits| - 1] in digits;
    if init != "" { DigitsAreCompact(init); }
  }

  lemma NumberIsCompact(s: string)
    requires ParseNumber(s).Some?
    ensures |Print(ParseNumber(s).value.value)| + |ParseNumber(s).value.rest| <= |s|
  {
    var t := if s != "" && s[0] == '-' then s[1..] else s;
    DigitsAreCompact(t[..DigitRun(t)]);
    hide PrintNat, NatOf, DigitRun;
  }

  // ---- Arrays and objects ----------------------------------------------------------------------------------------

  // The text of a member and the separator after it.
  function MemberSize(key: string, field: Json): nat {
    |Quote(key)| + 1 + |Print(field)| + 1
  }

  // The members of an object, in any order.
  ghost function Size(fields: Dict): nat {
    if fields == map[] then 0
    else
      var key :| key in fields;
      MemberSize(key, fields[key]) + Size(fields - {key})
  }

  lemma {:induction false} SizeSplits(fields: Dict, key: string)
    requires key in fields
    ensures Size(fields) == MemberSize(key, fields[key]) + Size(fields - {key})
    decreases |fields|
  {
    var first :| first in fields && Size(fields) == MemberSize(first, fields[first]) + Size(fields - {first});
    if first != key {
      SizeSplits(fields - {first}, key);
      SizeSplits(fields - {key}, first);
      assert fields - {first} - {key} == fields - {key} - {first};
    }
  }

  lemma SizeOfMore(key: string, field: Json, others: Dict)
    ensures Size(map[key := field] + others) <= MemberSize(key, field) + Size(others)
  {
    var all := map[key := field] + others;
    if key in others {
      assert all == others;
    } else {
      SizeSplits(all, key);
      assert all - {key} == others;
    }
  }

  lemma {:induction false} JoinedSize(v: Json, ks: seq<string>)
    requires v.Obj? && ks != [] && (forall k | k in ks :: k in v.fields) && Ascending(ks)
    ensures |Join(PrintMembers(v, ks))| + 1 == Size(FieldsAt(v, ks))
  {
    var fields := FieldsAt(v, ks);
    assert ks[0] in fields && fields[ks[0]] == v.fields[ks[0]];
    SizeSplits(fields, ks[0]);
    if |ks| == 1 {
      assert fields - {ks[0]} == map[];
    } else {
      assert fields - {ks[0]} == FieldsAt(v, ks[1..]) by { WithoutFirst(v, ks); }
      JoinedSize(v, ks[1..]);
      JoinMembers(v, ks);
    }
  }

  lemma WithoutFirst(v: Json, ks: seq<string>)
    requires v.Obj? && ks != [] && (forall k | k in ks :: k in v.fields) && Ascending(ks)
    ensures FieldsAt(v, ks) - {ks[0]} == FieldsAt(v, ks[1..])
  {
    assert forall k :: k in ks[1..] <==> k in ks && k != ks[0] by { TailOfDistinct(ks); }
  }

  lemma TailOfDistinct(ks: seq<string>)
    requires ks != [] && Ascending(ks)
    ensures forall k :: k in ks[1..] <==> k in ks && k != ks[0]
  {
    forall k | k in ks && k != ks[0] ensures k in ks[1..] {
      var i :| 0 <= i < |ks| && ks[i] == k;
      assert ks[1..][i - 1] == k;
    }
  }

  lemma ObjectSize(fields: Dict)
    ensures |Print(Obj(fields))| == if fields == map[] then 2 else 1 + Size(fields)
  {
    var v, ks := Obj(fields), SortedKeys(fields.Keys);
    AllFields(v, ks);
    if ks != [] { JoinedSize(v, ks); }
    assert ks == [] ==> PrintMembers(v, ks) == [];
  }

  // ---- Compact values -----------------------------------------------------------------------------------------------

  lemma {:induction false} ValueIsCompact(s: string)
    requires ParseValue(s).Some?
    ensures |Print(ParseValue(s).value.value)| + |ParseValue(s).value.rest| <= |s|
    decreases |s|, 0
  {
    if ParseWord(s).Some? {
      WordIsCompact(s);
    } else if s[0] == '"' {
      StringIsCompact(s[1..]);
    } else if s[0] == '[' {
      ItemsAreCompact(s[1..]);
    } else if s[0] == '{' {
      MembersAreCompact(s[1..]);
      ObjectSize(ParseMembers(s[1..]).value.value);
    } else {
      NumberIsCompact(s);
    }
  }

  lemma WordIsCompact(s: string)
    requires ParseWord(s).Some?
    ensures |Print(ParseWord(s).value.value)| + |ParseWord(s).value.rest| <= |s|
  {
    EmptyTexts();
  }

  lemma EmptyTexts()
    ensures Print(Arr([])) == "[]" && Print(Obj(map[])) == "{}"
  {
    var none: Dict := map[];
    assert SortedKeys(none.Keys) == [];
  }

  lemma {:induction false} ItemsAreCompact(s: string)
    requires ParseItems(s).Some?
    ensures |Join(PrintItems(ParseItems(s).value.value))| + 1 + |ParseItems(s).value.rest| <= |s|
    ensures ParseItems(s).value.value != []
    decreases |s|, 1
  {
    ValueIsCompact(s);
    var p := ParseValue(s).value;
    if p.rest[0] == ',' {
      ItemsAreCompact(p.rest[1..]);
      var items, others := ParseItems(s).value.value, ParseItems(p.rest[1..]).value.value;
      assert items[0] == p.value && items[1..] == others;
      JoinItems(items);
    } else {
      assert PrintItems([p.value]) == [Print(p.value)];
    }
  }

  lemma {:induction false} MembersAreCompact(s: string)
    requires ParseMembers(s).Some?
    ensures Size(ParseMembers(s).value.value) + |ParseMembers(s).value.rest| <= |s|
    ensures ParseMembers(s).value.value != map[]
    decreases |s|, 1
  {
    StringIsCompact(s[1..]);
    var k := ParseString(s[1..]).value;
    ValueIsCompact(k.rest[1..]);
    var p := ParseValue(k.rest[1..]).value;
    if p.rest[0] == ',' {
      MembersAreCompact(p.rest[1..]);
      SizeOfMore(k.value, p.value, ParseMembers(p.rest[1..]).value.value);
    } else {
      SizeOfMore(k.value, p.value, map[]);
      assert map[k.value := p.value] + map[] == map[k.value := p.value];
    }
    assert k.value in ParseMembers(s).value.value;
  }

  // Main result: no text of the compact form that reads as a value is shorter than its canonical one.
  lemma PrintIsShortest(text: string, v: Json)
    requires Parse(text) == Some(v)
    ensures |Print(v)| <= |text|
  {
    ValueIsCompact(text);
  }

  // ---- Spelling -----------------------------------------------------------------------------------------------------

  predicate Plain(c: char) { c != '"' && c != '\\' && c as int >= 0x20 }

  // Main result: a string without quotes, backslashes and control characters is written as it is.
  lemma PlainStringsAreLiteral(s: string)
    requires forall i | 0 <= i < |s| :: Plain(s[i])
    ensures Print(Str(s)) == "\"" + s + "\""
  {
    PlainText(s);
  }

  lemma {:induction false} PlainText(s: string)
    requires forall i | 0 <= i < |s| :: Plain(s[i])
    ensures Escape(s) == s
  {
    if s != "" {
      assert Plain(s[0]);
      PlainText(s[1..]);
      assert [s[0]] + s[1..] == s;
    }
  }

  // The other characters, one by one: two-character escapes, or four lower-case hex digits.
  lemma EscapesAreStandard(c: char)
    requires !Plain(c)
    ensures Escape([c]) ==
      if c == '"' then "\\\"" else if c == '\\' then "\\\\"
      else if c as int == 8 then "\\b" else if c as int == 9 then "\\t" else if c as int == 10 then "\\n"
      else if c as int == 12 then "\\f" else if c as int == 13 then "\\r"
      else "\\u00" + ["01"[c as int / 16], "0123456789abcdef"[c as int % 16]]
  {
    assert Escape([c]) == EscapeChar(c) + Escape("");
  }

  // A string is written character by character.
  lemma {:induction false} EscapeConcat(s: string, t: string)
    ensures Escape(s + t) == Escape(s) + Escape(t)
  {
    if s == "" {
      assert s + t == t;
    } else {
      assert (s + t)[1..] == s[1..] + t;
      EscapeConcat(s[1..], t);
    }
  }

  // Keys are compared at the first character in which they differ, and a prefix comes first.
  lemma {:induction false} KeysByCodePoint(prefix: string, c: char, x: string, d: char, y: string)
    requires c < d
    ensures StrLe(prefix + [c] + x, prefix + [d] + y) && !StrLe(prefix + [d] + y, prefix + [c] + x)
    ensures StrLe(prefix, prefix + x)
  {
    var a, b := prefix + [c] + x, prefix + [d] + y;
    if prefix != "" {
      KeysByCodePoint(prefix[1..], c, x, d, y);
      assert a[1..] == prefix[1..] + [c] + x && b[1..] == prefix[1..] + [d] + y;
      assert (prefix + x)[1..] == prefix[1..] + x;
    }
  }

  // Main result: the members of an object are written in that order, each key with its value.
  lemma MembersInOrder(fields: Dict, ks: seq<string>)
    requires KeySet(ks) == fields.Keys && forall i, j | 0 <= i < j < |ks| :: StrLe(ks[i], ks[j]) && ks[i] != ks[j]
    ensures (forall k | k in ks :: k in fields)
    ensures Print(Obj(fields)) == "{" + Join(MemberTexts(fields, ks)) + "}"
  {
    AllFields(Obj(fields), ks);
    AscendingIsUnique(ks, SortedKeys(fields.Keys));
    SameTexts(fields, ks);
  }

  function MemberTexts(fields: Dict, ks: seq<string>): (texts: seq<string>)
    requires forall k | k in ks :: k in fields
    ensures |texts| == |ks|
    ensures forall i | 0 <= i < |ks| :: texts[i] == Print(Str(ks[i])) + ":" + Print(fields[ks[i]])
  {
    seq(|ks|, i requires 0 <= i < |ks| => assert ks[i] in ks; Print(Str(ks[i])) + ":" + Print(fields[ks[i]]))
  }

  lemma {:induction false} SameTexts(fields: Dict, ks: seq<string>)
    requires forall k | k in ks :: k in fields
    ensures PrintMembers(Obj(fields), ks) == MemberTexts(fields, ks)
  {
    if ks != [] {
      SameTexts(fields, ks[1..]);
      assert MemberTexts(fields, ks) == [MemberTexts(fields, ks)[0]] + MemberTexts(fields, ks[1..]);
    }
  }
}
