/** The canonical text of an LSML document (src/lumencast/lsml/hash.py, LSML 1.0 section 3),
    and a JSON reader that shows it to be unambiguous. */
module Canonical {
  import opened Wrappers
  import opened JsonValues
  import opened Decimals
  import opened Numbers
  import opened JsonStrings
  import opened KeySorting

  /** A document as Python holds it: floats by sign and repr, dicts with an order of keys.
      DOther is anything without a canonical form: a non-finite float, or another type. */
  datatype Doc =
    | DNull
    | DBool(b: bool)
    | DNum(neg: bool, repr: string)
    | DStr(s: string)
    | DArr(items: seq<Doc>)
    | DObj(members: seq<Member>)
    | DOther

  datatype Member = Member(key: string, value: Doc)

  /** What Python guarantees: reprs are reprs, and a dict holds a key once. */
  predicate IsDoc(d: Doc) {
    match d
    case DNum(_, repr) => ReprShaped(repr)
    case DArr(items) => forall i :: 0 <= i < |items| ==> IsDoc(items[i])
    case DObj(members) =>
      && (forall i :: 0 <= i < |members| ==> IsDoc(members[i].value))
      && (forall i, j :: 0 <= i < j < |members| ==> members[i].key != members[j].key)
    case _ => true
  }

  predicate Supported(d: Doc) {
    match d
    case DArr(items) => forall i :: 0 <= i < |items| ==> Supported(items[i])
    case DObj(members) => forall i :: 0 <= i < |members| ==> Supported(members[i].value)
    case _ => !d.DOther?
  }

  predicate Printable(d: Doc) {
    IsDoc(d) && Supported(d)
  }

  // ------------------------------------------------------------------------ printing

  function Commas(texts: seq<string>): string {
    if texts == [] then "" else if |texts| == 1 then texts[0] else texts[0] + "," + Commas(texts[1..])
  }

  function MemberText(kt: KeyText): string {
    Quote(kt.key) + ":" + kt.text
  }

  function MemberTexts(kts: seq<KeyText>): (r: seq<string>)
    ensures |r| == |kts|
  {
    if kts == [] then [] else [MemberText(kts[0])] + MemberTexts(kts[1..])
  }

  function Text(d: Doc): string
    requires Printable(d)
    decreases d, 1
  {
    match d
    case DNull => "null"
    case DBool(b) => if b then "true" else "false"
    case DNum(neg, repr) => FormatNumber(neg, repr)
    case DStr(s) => Quote(s)
    case DArr(items) => "[" + Commas(Texts(items)) + "]"
    case DObj(members) => "{" + Commas(MemberTexts(SortKeys(KeyTexts(members)))) + "}"
    case DOther => assert false; ""
  }

  function Texts(items: seq<Doc>): (r: seq<string>)
    requires forall i :: 0 <= i < |items| ==> Printable(items[i])
    ensures |r| == |items| && forall i :: 0 <= i < |items| ==> r[i] == Text(items[i])
    decreases items, 0
  {
    if items == [] then [] else [Text(items[0])] + Texts(items[1..])
  }

  function KeyTexts(members: seq<Member>): (r: seq<KeyText>)
    requires forall i :: 0 <= i < |members| ==> Printable(members[i].value)
    ensures |r| == |members|
    ensures forall i :: 0 <= i < |members| ==> r[i] == KeyText(members[i].key, Text(members[i].value))
    decreases members, 0
  {
    if members == [] then [] else [KeyText(members[0].key, Text(members[0].value))] + KeyTexts(members[1..])
  }

  /** Err stands for the ValueError or TypeError that a part without a canonical form raises. */
  function Canonicalise(d: Doc): Result<string, string>
    requires IsDoc(d)
  {
    if Supported(d) then Ok(Text(d)) else Err("no canonical JSON form")
  }

  // ------------------------------------------------------------------------- meaning

  /** The value a document denotes: key order and the spelling of numbers are gone. */
  function Meaning(d: Doc): Json
    requires Printable(d)
    decreases d, 1
  {
    match d
    case DNull => JNull
    case DBool(b) => JBool(b)
    case DNum(neg, repr) => JNum(SignedValue(neg, repr))
    case DStr(s) => JStr(s)
    case DArr(items) => JArr(Meanings(items))
    case DObj(members) => JObj(Fields(members))
    case DOther => assert false; JNull
  }

  function Meanings(items: seq<Doc>): (r: seq<Json>)
    requires forall i :: 0 <= i < |items| ==> Printable(items[i])
    ensures |r| == |items| && forall i :: 0 <= i < |items| ==> r[i] == Meaning(items[i])
    decreases items, 0
  {
    if items == [] then [] else [Meaning(items[0])] + Meanings(items[1..])
  }

  function Fields(members: seq<Member>): (m: map<string, Json>)
    requires forall i :: 0 <= i < |members| ==> Printable(members[i].value)
    requires forall i, j :: 0 <= i < j < |members| ==> members[i].key != members[j].key
    ensures forall k :: k in m <==> exists i :: 0 <= i < |members| && members[i].key == k
    ensures forall i :: 0 <= i < |members| ==> m[members[i].key] == Meaning(members[i].value)
    decreases members, 0
  {
    if members == [] then map[] else Fields(members[1..])[members[0].key := Meaning(members[0].value)]
  }

  // ------------------------------------------------------------------------- reading

  predicate Starts(s: string, c: char) {
    s != "" && s[0] == c
  }

  function ReadLiteral(s: string): (r: Option<(Json, string)>)
    ensures r.Some? ==> |r.value.1| < |s|
  {
    if "null" <= s then Some((JNull, s[4..]))
    else if "true" <= s then Some((JBool(true), s[4..]))
    else if "false" <= s then Some((JBool(false), s[5..]))
    else None
  }

  function ReadStringValue(s: string): (r: Option<(Json, string)>)
    ensures r.Some? ==> |r.value.1| < |s|
  {
    var r := ReadChars(s);
    if r.None? then None else Some((JStr(r.value.0), r.value.1))
  }

  function ReadNumberValue(s: string): (r: Option<(Json, string)>)
    ensures r.Some? ==> |r.value.1| < |s|
  {
    var r := ReadNumber(s);
    if r.None? then None else Some((JNum(r.value.0), r.value.1))
  }

  /** One JSON value at the start of s, and what follows it. */
  function ReadValue(s: string): (r: Option<(Json, string)>)
    ensures r.Some? ==> |r.value.1| < |s|
    decreases |s|, 1
  {
    if s == "" then None
    else if s[0] == 'n' || s[0] == 't' || s[0] == 'f' then ReadLiteral(s)
    else if s[0] == '"' then ReadStringValue(s[1..])
    else if s[0] == '[' then ReadArray(s[1..])
    else if s[0] == '{' then ReadObject(s[1..])
    else ReadNumberValue(s)
  }

  function ReadArray(s: string): (r: Option<(Json, string)>)
    ensures r.Some? ==> |r.value.1| < |s|
    decreases |s|, 3
  {
    if Starts(s, ']') then Some((JArr([]), s[1..]))
    else
      var r := ReadItems(s);
      if r.None? then None else Some((JArr(r.value.0), r.value.1))
  }

  function ReadObject(s: string): (r: Option<(Json, string)>)
    ensures r.Some? ==> |r.value.1| < |s|
    decreases |s|, 3
  {
    if Starts(s, '}') then Some((JObj(map[]), s[1..]))
    else
      var r := ReadMembers(s);
      if r.None? then None else Some((JObj(r.value.0), r.value.1))
  }

  function ReadItems(s: string): (r: Option<(seq<Json>, string)>)
    ensures r.Some? ==> |r.value.1| < |s|
    decreases |s|, 2
  {
    var v := ReadValue(s);
    if v.None? then None
    else if Starts(v.value.1, ']') then Some(([v.value.0], v.value.1[1..]))
    else if Starts(v.value.1, ',') then
      var r := ReadItems(v.value.1[1..]);
      if r.None? then None else Some(([v.value.0] + r.value.0, r.value.1))
    else None
  }

  /** Of two members with one key the later counts. */
  function ReadMembers(s: string): (r: Option<(map<string, Json>, string)>)
    ensures r.Some? ==> |r.value.1| < |s|
    decreases |s|, 2
  {
    if !Starts(s, '"') then None
    else
      var k := ReadChars(s[1..]);
      if k.None? || !Starts(k.value.1, ':') then None
      else
        var v := ReadValue(k.value.1[1..]);
        if v.None? then None
        else if Starts(v.value.1, '}') then Some((map[k.value.0 := v.value.0], v.value.1[1..]))
        else if Starts(v.value.1, ',') then
          var r := ReadMembers(v.value.1[1..]);
          if r.None? then None else Some((map[k.value.0 := v.value.0] + r.value.0, r.value.1))
        else None
  }

  // -------------------------------------------------------------- the text reads back

  predicate Delimited(rest: string) {
    rest == "" || rest[0] == ',' || rest[0] == ']' || rest[0] == '}'
  }

  /** Followed by any delimiter, the text reads as v. */
  ghost predicate Reads(text: string, v: Json) {
    && text != "" && text[0] != ']' && text[0] != '}'
    && forall rest :: Delimited(rest) ==> ReadValue(text + rest) == Some((v, rest))
  }

  lemma {:induction false} LastItem(s: string, v: Json, rest: string)
    requires ReadValue(s) == Some((v, "]" + rest))
    ensures ReadItems(s) == Some(([v], rest))
  {
    assert ("]" + rest)[1..] == rest;
  }

  lemma {:induction false} OneMoreItem(s: string, v: Json, t: string, vs: seq<Json>, rest: string)
    requires ReadValue(s) == Some((v, "," + t)) && ReadItems(t) == Some((vs, rest))
    ensures ReadItems(s) == Some(([v] + vs, rest))
  {
    assert ("," + t)[1..] == t;
  }

  lemma {:induction false} Apart(text: string, v: Json, rest: string)
    requires Reads(text, v) && Delimited(rest)
    ensures ReadValue(text + rest) == Some((v, rest))
  {
  }

  lemma {:induction false} CommasCons(texts: seq<string>, close: string)
    requires |texts| > 1
    ensures Commas(texts) + close == texts[0] + ("," + (Commas(texts[1..]) + close))
  {
  }

  lemma {:induction false} ItemsRead(texts: seq<string>, vals: seq<Json>, rest: string)
    requires texts != [] && |texts| == |vals| && forall i :: 0 <= i < |texts| ==> Reads(texts[i], vals[i])
    ensures ReadItems(Commas(texts) + ("]" + rest)) == Some((vals, rest))
    decreases |texts|
  {
    var close := "]" + rest;
    if |texts| == 1 {
      Apart(texts[0], vals[0], close);
      LastItem(texts[0] + close, vals[0], rest);
      assert vals == [vals[0]];
    } else {
      ItemsRead(texts[1..], vals[1..], rest);
      var tail := Commas(texts[1..]) + close;
      Apart(texts[0], vals[0], "," + tail);
      OneMoreItem(texts[0] + ("," + tail), vals[0], tail, vals[1..], rest);
      CommasCons(texts, close);
      assert vals == [vals[0]] + vals[1..];
    }
  }

  /** The part of m under the keys of kts. */
  ghost function Under(m: map<string, Json>, kts: seq<KeyText>): map<string, Json>
    requires forall i :: 0 <= i < |kts| ==> kts[i].key in m
  {
    map k | k in m && exists i :: 0 <= i < |kts| && kts[i].key == k :: m[k]
  }

  lemma {:induction false} LastMember(s: string, key: string, t: string, v: Json, rest: string)
    requires Starts(s, '"') && ReadChars(s[1..]) == Some((key, ":" + t)) && ReadValue(t) == Some((v, "}" + rest))
    ensures ReadMembers(s) == Some((map[key := v], rest))
  {
    assert (":" + t)[1..] == t;
    assert ("}" + rest)[1..] == rest;
  }

  lemma {:induction false} OneMoreMember(s: string, key: string, t: string, v: Json, u: string,
                                         m: map<string, Json>, rest: string)
    requires Starts(s, '"') && ReadChars(s[1..]) == Some((key, ":" + t)) && ReadValue(t) == Some((v, "," + u))
    requires ReadMembers(u) == Some((m, rest))
    ensures ReadMembers(s) == Some((map[key := v] + m, rest))
  {
    assert (":" + t)[1..] == t;
    assert ("," + u)[1..] == u;
  }

  lemma {:induction false} MemberReads(kt: KeyText, rest: string)
    ensures var s := MemberText(kt) + rest;
      Starts(s, '"') && ReadChars(s[1..]) == Some((kt.key, ":" + (kt.text + rest)))
  {
    var after := ":" + (kt.text + rest);
    QuoteReads(kt.key, after);
    assert MemberText(kt) + rest == Quote(kt.key) + after;
  }

  lemma {:induction false} UnderSplits(m: map<string, Json>, kts: seq<KeyText>)
    requires kts != [] && forall i :: 0 <= i < |kts| ==> kts[i].key in m
    ensures Under(m, kts) == map[kts[0].key := m[kts[0].key]] + Under(m, kts[1..])
  {
    forall k ensures k in Under(m, kts) <==> k == kts[0].key || k in Under(m, kts[1..]) {
      if k in Under(m, kts) && k != kts[0].key {
        var i :| 0 <= i < |kts| && kts[i].key == k;
        assert kts[1..][i-1].key == k;
      }
      if k in Under(m, kts[1..]) {
        var i :| 0 <= i < |kts[1..]| && kts[1..][i].key == k;
        assert kts[i+1].key == k;
      }
    }
  }

  lemma {:induction false} MembersRead(kts: seq<KeyText>, m: map<string, Json>, rest: string)
    requires kts != [] && forall i :: 0 <= i < |kts| ==> kts[i].key in m && Reads(kts[i].text, m[kts[i].key])
    ensures ReadMembers(Commas(MemberTexts(kts)) + ("}" + rest)) == Some((Under(m, kts), rest))
    decreases |kts|
  {
    var close, kt := "}" + rest, kts[0];
    var texts, v := MemberTexts(kts), m[kt.key];
    UnderSplits(m, kts);
    if |kts| == 1 {
      MemberReads(kt, close);
      Apart(kt.text, v, close);
      LastMember(MemberText(kt) + close, kt.key, kt.text + close, v, rest);
      UnderNone(m);
      assert map[kt.key := v] + map[] == map[kt.key := v];
    } else {
      MembersRead(kts[1..], m, rest);
      var tail := Commas(MemberTexts(kts[1..])) + close;
      MemberReads(kt, "," + tail);
      Apart(kt.text, v, "," + tail);
      OneMoreMember(MemberText(kt) + ("," + tail), kt.key, kt.text + ("," + tail), v, tail, Under(m, kts[1..]), rest);
      CommasCons(texts, close);
    }
  }

  lemma {:induction false} UnderNone(m: map<string, Json>)
    ensures Under(m, []) == map[]
  {
  }

  lemma {:induction false} LiteralReads(text: string, v: Json)
    requires (text == "null" && v == JNull) || (text == "true" && v == JBool(true)) ||
             (text == "false" && v == JBool(false))
    ensures Reads(text, v)
  {
    forall rest | Delimited(rest) ensures ReadValue(text + rest) == Some((v, rest)) {
      var s := text + rest;
      assert s[..|text|] == text && s[|text|..] == rest;
      assert s[0] == text[0];
    }
  }

  lemma {:induction false} NumberDispatch(s: string)
    requires s != "" && (s[0] == '-' || IsDigit(s[0]))
    ensures ReadValue(s) == ReadNumberValue(s)
  {
    NumberHead(s[0]);
  }

  lemma {:induction false} NumberHead(c: char)
    requires c == '-' || IsDigit(c)
    ensures c != 'n' && c != 't' && c != 'f' && c != '"' && c != '[' && c != '{'
  {
  }

  lemma {:induction false} NumberReadsAt(text: string, v: real, rest: string)
    requires text != "" && (text[0] == '-' || IsDigit(text[0]))
    requires ReadNumber(text + rest) == Some((v, rest))
    ensures ReadValue(text + rest) == Some((JNum(v), rest))
  {
    NumberDispatch(text + rest);
  }

  lemma {:induction false} NumberTextReads(text: string, v: real)
    requires text != "" && (text[0] == '-' || IsDigit(text[0]))
    requires forall rest :: Ends(rest) ==> ReadNumber(text + rest) == Some((v, rest))
    ensures Reads(text, JNum(v))
  {
    forall rest | Delimited(rest) ensures ReadValue(text + rest) == Some((JNum(v), rest)) {
      assert Ends(rest);
      NumberReadsAt(text, v, rest);
    }
  }

  lemma {:induction false} NumberReads(neg: bool, repr: string)
    requires ReprShaped(repr)
    ensures Reads(FormatNumber(neg, repr), JNum(SignedValue(neg, repr)))
  {
    FormatNumberHead(neg, repr);
    forall rest | Ends(rest)
      ensures ReadNumber(FormatNumber(neg, repr) + rest) == Some((SignedValue(neg, repr), rest))
    {
      FormatNumberReads(neg, repr, rest);
    }
    NumberTextReads(FormatNumber(neg, repr), SignedValue(neg, repr));
  }

  lemma {:induction false} StringReads(s: string)
    ensures Reads(Quote(s), JStr(s))
  {
    forall rest | Delimited(rest) ensures ReadValue(Quote(s) + rest) == Some((JStr(s), rest)) {
      QuoteReads(s, rest);
    }
  }

  lemma {:induction false} ArrayDispatch(s: string)
    ensures ReadValue("[" + s) == ReadArray(s)
  {
    assert ("[" + s)[0] == '[' && ("[" + s)[1..] == s;
  }

  lemma {:induction false} ObjectDispatch(s: string)
    ensures ReadValue("{" + s) == ReadObject(s)
  {
    assert ("{" + s)[0] == '{' && ("{" + s)[1..] == s;
  }

  lemma {:induction false} Bracketed(open: string, inner: string, close: string, rest: string)
    ensures open + inner + close + rest == open + (inner + (close + rest))
  {
  }

  lemma {:induction false} CommasHead(texts: seq<string>, close: string)
    requires texts != [] && texts[0] != ""
    ensures Commas(texts) + close != "" && (Commas(texts) + close)[0] == texts[0][0]
  {
  }

  lemma {:induction false} InnerArray(texts: seq<string>, vals: seq<Json>, rest: string)
    requires |texts| == |vals| && forall i :: 0 <= i < |texts| ==> Reads(texts[i], vals[i])
    ensures ReadArray(Commas(texts) + ("]" + rest)) == Some((JArr(vals), rest))
  {
    if texts == [] {
      assert Commas(texts) + ("]" + rest) == "]" + rest;
      assert ("]" + rest)[1..] == rest;
    } else {
      ItemsRead(texts, vals, rest);
      CommasHead(texts, "]" + rest);
    }
  }

  lemma {:induction false} InnerObject(kts: seq<KeyText>, m: map<string, Json>, rest: string)
    requires forall i :: 0 <= i < |kts| ==> kts[i].key in m && Reads(kts[i].text, m[kts[i].key])
    ensures ReadObject(Commas(MemberTexts(kts)) + ("}" + rest)) == Some((JObj(Under(m, kts)), rest))
  {
    var inner := Commas(MemberTexts(kts));
    if kts == [] {
      assert inner + ("}" + rest) == "}" + rest;
      assert ("}" + rest)[1..] == rest;
      UnderNone(m);
    } else {
      MembersRead(kts, m, rest);
      CommasHead(MemberTexts(kts), "}" + rest);
    }
  }

  lemma {:induction false} ArrayText(texts: seq<string>, vals: seq<Json>, rest: string)
    requires |texts| == |vals| && forall i :: 0 <= i < |texts| ==> Reads(texts[i], vals[i])
    ensures ReadValue("[" + Commas(texts) + "]" + rest) == Some((JArr(vals), rest))
  {
    Bracketed("[", Commas(texts), "]", rest);
    ArrayDispatch(Commas(texts) + ("]" + rest));
    InnerArray(texts, vals, rest);
  }

  lemma {:induction false} ObjectText(kts: seq<KeyText>, m: map<string, Json>, rest: string)
    requires forall i :: 0 <= i < |kts| ==> kts[i].key in m && Reads(kts[i].text, m[kts[i].key])
    ensures ReadValue("{" + Commas(MemberTexts(kts)) + "}" + rest) == Some((JObj(Under(m, kts)), rest))
  {
    var inner := Commas(MemberTexts(kts));
    Bracketed("{", inner, "}", rest);
    ObjectDispatch(inner + ("}" + rest));
    InnerObject(kts, m, rest);
  }

  lemma {:induction false} ArrayReads(texts: seq<string>, vals: seq<Json>)
    requires |texts| == |vals| && forall i :: 0 <= i < |texts| ==> Reads(texts[i], vals[i])
    ensures Reads("[" + Commas(texts) + "]", JArr(vals))
  {
    var text := "[" + Commas(texts) + "]";
    forall rest | Delimited(rest) ensures ReadValue(text + rest) == Some((JArr(vals), rest)) {
      ArrayText(texts, vals, rest);
    }
  }

  lemma {:induction false} ObjectReads(kts: seq<KeyText>, m: map<string, Json>)
    requires forall i :: 0 <= i < |kts| ==> kts[i].key in m && Reads(kts[i].text, m[kts[i].key])
    requires forall k :: k in m ==> exists i :: 0 <= i < |kts| && kts[i].key == k
    ensures Reads("{" + Commas(MemberTexts(kts)) + "}", JObj(m))
  {
    var text := "{" + Commas(MemberTexts(kts)) + "}";
    assert Under(m, kts) == m;
    assert text[0] == '{';
    forall rest | Delimited(rest) ensures ReadValue(text + rest) == Some((JObj(m), rest)) {
      ObjectText(kts, m, rest);
    }
  }

  /** The canonical text, followed by any delimiter, reads back to the meaning. */
  lemma {:induction false} TextReads(d: Doc)
    requires Printable(d)
    ensures Reads(Text(d), Meaning(d))
    decreases d
  {
    match d
    case DNull => LiteralReads("null", JNull);
    case DBool(b) => LiteralReads(if b then "true" else "false", JBool(b));
    case DNum(neg, repr) => NumberReads(neg, repr);
    case DStr(s) => StringReads(s);
    case DArr(items) =>
      forall i | 0 <= i < |items| ensures Reads(Texts(items)[i], Meanings(items)[i]) { TextReads(items[i]); }
      ArrayReads(Texts(items), Meanings(items));
    case DObj(members) =>
      forall i | 0 <= i < |members| ensures Reads(Text(members[i].value), Meaning(members[i].value)) {
        TextReads(members[i].value);
      }
      MembersTextRead(members);
  }

  lemma {:induction false} MembersTextRead(members: seq<Member>)
    requires Members(members)
    requires forall i :: 0 <= i < |members| ==> Reads(Text(members[i].value), Meaning(members[i].value))
    ensures Reads("{" + Commas(MemberTexts(SortKeys(KeyTexts(members)))) + "}", JObj(Fields(members)))
  {
    var kts, m := KeyTexts(members), Fields(members);
    var sorted := SortKeys(kts);
    SortElements(kts);
    forall i | 0 <= i < |sorted| ensures sorted[i].key in m && Reads(sorted[i].text, m[sorted[i].key]) {
      assert sorted[i] in kts;
      var j :| 0 <= j < |kts| && kts[j] == sorted[i];
    }
    forall k | k in m ensures exists i :: 0 <= i < |sorted| && sorted[i].key == k {
      var j :| 0 <= j < |members| && members[j].key == k;
      assert kts[j] in sorted;
    }
    ObjectReads(sorted, m);
  }

  // ------------------------------------------------------------------ equal texts

  predicate KeysIn(a: seq<KeyText>, b: seq<KeyText>) {
    forall i :: 0 <= i < |a| ==> exists j :: 0 <= j < |b| && b[j].key == a[i].key
  }

  /** Entries that share a key are the same entry. */
  predicate Agree(a: seq<KeyText>, b: seq<KeyText>) {
    forall i, j :: 0 <= i < |a| && 0 <= j < |b| && a[i].key == b[j].key ==> a[i] == b[j]
  }

  lemma {:induction false} EntryIn(a: seq<KeyText>, b: seq<KeyText>, y: KeyText)
    requires KeysIn(a, b) && Agree(a, b) && y in a
    ensures y in b
  {
    var i :| 0 <= i < |a| && a[i] == y;
    var j :| 0 <= j < |b| && b[j].key == a[i].key;
    assert b[j] == y;
  }

  /** The same keys with the same texts sort to the same sequence. */
  lemma {:induction false} SameMembers(a: seq<KeyText>, b: seq<KeyText>)
    requires DistinctKeys(a) && DistinctKeys(b)
    requires KeysIn(a, b) && KeysIn(b, a) && Agree(a, b) && Agree(b, a)
    ensures SortKeys(a) == SortKeys(b)
  {
    SortSorted(a);
    SortSorted(b);
    forall y ensures y in SortKeys(a) <==> y in SortKeys(b) {
      SortElements(a);
      SortElements(b);
      if y in a { EntryIn(a, b, y); }
      if y in b { EntryIn(b, a, y); }
    }
    SortedUnique(SortKeys(a), SortKeys(b));
  }

  lemma {:induction false} SameNumber(neg: bool, repr: string, e: Doc)
    requires Printable(DNum(neg, repr)) && Printable(e) && Meaning(DNum(neg, repr)) == Meaning(e)
    ensures Text(DNum(neg, repr)) == Text(e)
  {
    FormatNumberExact(neg, repr, e.neg, e.repr);
  }

  /** Documents with one meaning have one canonical text. */
  lemma {:induction false} SameMeaningSameText(d: Doc, e: Doc)
    requires Printable(d) && Printable(e) && Meaning(d) == Meaning(e)
    ensures Text(d) == Text(e)
    decreases d, 1
  {
    match d
    case DNull =>
    case DBool(_) =>
    case DStr(_) =>
    case DNum(neg, repr) => SameNumber(neg, repr, e);
    case DArr(items) =>
      SameItems(items, e.items);
    case DObj(members) =>
      SameObject(members, e.members);
  }

  lemma {:induction false} SameItems(a: seq<Doc>, b: seq<Doc>)
    requires forall i :: 0 <= i < |a| ==> Printable(a[i])
    requires forall i :: 0 <= i < |b| ==> Printable(b[i])
    requires Meanings(a) == Meanings(b)
    ensures Texts(a) == Texts(b)
    decreases a, 0
  {
    forall i | 0 <= i < |a| ensures |b| == |a| && Texts(a)[i] == Texts(b)[i] {
      assert Meanings(a)[i] == Meanings(b)[i];
      SameMeaningSameText(a[i], b[i]);
    }
    assert |a| == |Meanings(a)| == |b|;
  }

  ghost predicate Members(ms: seq<Member>) {
    && (forall i :: 0 <= i < |ms| ==> Printable(ms[i].value))
    && (forall i, j :: 0 <= i < j < |ms| ==> ms[i].key != ms[j].key)
  }

  lemma {:induction false} KeyIsField(a: seq<Member>, b: seq<Member>, i: nat) returns (j: nat)
    requires Members(a) && Members(b) && Fields(a) == Fields(b) && i < |a|
    ensures j < |b| && b[j].key == a[i].key && Meaning(b[j].value) == Meaning(a[i].value)
  {
    assert a[i].key in Fields(a);
    j :| 0 <= j < |b| && b[j].key == a[i].key;
  }

  lemma {:induction false} SameEntries(a: seq<Member>, b: seq<Member>, i: nat, j: nat)
    requires Members(a) && Members(b) && Fields(a) == Fields(b)
    requires i < |a| && j < |b| && a[i].key == b[j].key
    ensures KeyTexts(a)[i] == KeyTexts(b)[j]
    decreases a, 0
  {
    assert Fields(a)[a[i].key] == Fields(b)[b[j].key];
    SameMeaningSameText(a[i].value, b[j].value);
  }

  lemma {:induction false} KeysCovered(a: seq<Member>, b: seq<Member>)
    requires Members(a) && Members(b) && Fields(a) == Fields(b)
    ensures KeysIn(KeyTexts(a), KeyTexts(b))
  {
    var ka, kb := KeyTexts(a), KeyTexts(b);
    forall i | 0 <= i < |ka| ensures exists j :: 0 <= j < |kb| && kb[j].key == ka[i].key {
      var j := KeyIsField(a, b, i);
      assert kb[j].key == ka[i].key;
    }
  }

  /** The same fields print the same sorted texts. */
  lemma {:induction false} SameObject(a: seq<Member>, b: seq<Member>)
    requires Members(a) && Members(b) && Fields(a) == Fields(b)
    ensures SortKeys(KeyTexts(a)) == SortKeys(KeyTexts(b))
    decreases a, 1
  {
    var ka, kb := KeyTexts(a), KeyTexts(b);
    forall i, j | 0 <= i < |ka| && 0 <= j < |kb| && ka[i].key == kb[j].key ensures ka[i] == kb[j] {
      SameEntries(a, b, i, j);
    }
    KeysCovered(a, b);
    KeysCovered(b, a);
    SameMembers(ka, kb);
  }

  // ---------------------------------------------------------- the text, part by part

  /** The members of an object text: every key once, in ascending order of code points, with
      the text of its value. */
  ghost predicate MemberList(members: seq<Member>, kts: seq<KeyText>) {
    && |kts| == |members|
    && (forall i, j :: 0 <= i < j < |kts| ==> Before(kts[i].key, kts[j].key))
    && (forall i :: 0 <= i < |kts| ==> exists j :: 0 <= j < |members| && members[j].key == kts[i].key)
  }

  /** The canonical JSON text of a document, whatever procedure produces it. */
  ghost predicate CanonicalForm(d: Doc, t: string)
    decreases d
  {
    match d
    case DNull => t == "null"
    case DBool(b) => t == if b then "true" else "false"
    case DNum(neg, repr) => ReprShaped(repr) && t == FormatNumber(neg, repr)
    case DStr(s) => t == "\"" + EscapeAll(s) + "\""
    case DArr(items) =>
      exists texts: seq<string> ::
        && |texts| == |items| && t == "[" + Commas(texts) + "]"
        && forall i :: 0 <= i < |items| ==> CanonicalForm(items[i], texts[i])
    case DObj(members) =>
      exists kts: seq<KeyText> ::
        && MemberList(members, kts) && t == "{" + Commas(MemberTexts(kts)) + "}"
        && forall i, j :: 0 <= i < |kts| && 0 <= j < |members| && kts[i].key == members[j].key ==>
             CanonicalForm(members[j].value, kts[i].text)
    case DOther => false
  }

  /** What stands between the brackets: the texts with single commas between them. */
  lemma {:induction false} CommasJoin(a: seq<string>, b: seq<string>)
    requires a != []
    ensures |a| == 1 ==> Commas(a) == a[0]
    ensures b != [] ==> Commas(a + b) == Commas(a) + "," + Commas(b)
    decreases |a|
  {
    if b != [] {
      if |a| == 1 {
        assert (a + b)[1..] == b;
      } else {
        CommasJoin(a[1..], b);
        assert (a + b)[1..] == a[1..] + b;
        assert a[0] + "," + (Commas(a[1..]) + "," + Commas(b)) == (a[0] + "," + Commas(a[1..])) + "," + Commas(b);
      }
    }
  }

  lemma {:induction false} MemberTextExact(kts: seq<KeyText>, i: nat)
    requires i < |kts|
    ensures MemberTexts(kts)[i] == "\"" + EscapeAll(kts[i].key) + "\"" + ":" + kts[i].text
  {
    if i > 0 { MemberTextExact(kts[1..], i - 1); }
  }

  lemma {:induction false} SortedMembers(members: seq<Member>)
    requires Members(members)
    ensures var kts := SortKeys(KeyTexts(members));
      && MemberList(members, kts)
      && forall i, j :: 0 <= i < |kts| && 0 <= j < |members| && kts[i].key == members[j].key ==>
           kts[i].text == Text(members[j].value)
  {
    var given := KeyTexts(members);
    var kts := SortKeys(given);
    SortAscends(given);
    forall i | 0 <= i < |kts|
      ensures exists j :: 0 <= j < |members| && members[j].key == kts[i].key
      ensures forall j :: 0 <= j < |members| && kts[i].key == members[j].key ==> kts[i].text == Text(members[j].value)
    {
      assert kts[i] in given;
      var k :| 0 <= k < |given| && given[k] == kts[i];
      assert members[k].key == kts[i].key;
    }
  }

  /** What is printed is the canonical form, at every depth. */
  lemma {:induction false} TextIsCanonical(d: Doc)
    requires Printable(d)
    ensures CanonicalForm(d, Text(d))
    decreases d
  {
    match d
    case DArr(items) =>
      forall i | 0 <= i < |items| ensures CanonicalForm(items[i], Text(items[i])) { TextIsCanonical(items[i]); }
      ArrayIsCanonical(items);
    case DObj(members) =>
      forall j | 0 <= j < |members| ensures CanonicalForm(members[j].value, Text(members[j].value)) {
        TextIsCanonical(members[j].value);
      }
      ObjectIsCanonical(members);
    case _ =>
  }

  lemma {:induction false} ArrayIsCanonical(items: seq<Doc>)
    requires Printable(DArr(items)) && forall i :: 0 <= i < |items| ==> CanonicalForm(items[i], Text(items[i]))
    ensures CanonicalForm(DArr(items), Text(DArr(items)))
  {
    var texts := Texts(items);
    assert Text(DArr(items)) == "[" + Commas(texts) + "]";
  }

  lemma {:induction false} ObjectIsCanonical(members: seq<Member>)
    requires Printable(DObj(members))
    requires forall j :: 0 <= j < |members| ==> CanonicalForm(members[j].value, Text(members[j].value))
    ensures CanonicalForm(DObj(members), Text(DObj(members)))
  {
    var kts := SortKeys(KeyTexts(members));
    SortedMembers(members);
    assert Text(DObj(members)) == "{" + Commas(MemberTexts(kts)) + "}";
  }

  /** The text is the canonical form, and equal texts have equal meanings: nothing is lost and
      nothing is ambiguous. */
  lemma {:induction false} CanonicalExact(d: Doc, e: Doc)
    requires Printable(d) && Printable(e)
    ensures Text(d) == Text(e) <==> Meaning(d) == Meaning(e)
    ensures CanonicalForm(d, Text(d))
  {
    TextIsCanonical(d);
    TextReads(d);
    TextReads(e);
    assert ReadValue(Text(d) + "") == Some((Meaning(d), ""));
    assert ReadValue(Text(e) + "") == Some((Meaning(e), ""));
    if Meaning(d) == Meaning(e) { SameMeaningSameText(d, e); }
  }
}
