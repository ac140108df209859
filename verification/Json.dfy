/** JSON values as Python holds them, their canonical text, and a reader of that text. */
module Json {
  datatype Option<+T> = None | Some(value: T)

  /** An object keeps its members in insertion order, as a Python dict does. */
  datatype Json =
    | Null
    | Bool(b: bool)
    | Int(n: int)
    | Str(s: string)
    | Arr(items: seq<Json>)
    | Obj(members: seq<Member>)

  datatype Member = Member(key: string, value: Json)

  /** What a JSON value means: objects are finite maps, so the order of members is forgotten. */
  datatype Value =
    | NullV
    | BoolV(b: bool)
    | IntV(n: int)
    | StrV(s: string)
    | ArrV(items: seq<Value>)
    | ObjV(fields: map<string, Value>)

  function Denote(v: Json): Value
    decreases v
  {
    match v
    case Null => NullV
    case Bool(b) => BoolV(b)
    case Int(n) => IntV(n)
    case Str(s) => StrV(s)
    case Arr(items) => ArrV(DenoteItems(items))
    case Obj(members) => ObjV(DenoteMembers(members))
  }

  function DenoteItems(items: seq<Json>): (r: seq<Value>)
    ensures |r| == |items|
    ensures forall i :: 0 <= i < |items| ==> r[i] == Denote(items[i])
    decreases items
  {
    if items == [] then [] else [Denote(items[0])] + DenoteItems(items[1..])
  }

  function DenoteMembers(members: seq<Member>): map<string, Value>
    decreases members
  {
    if members == [] then map[]
    else map[members[0].key := Denote(members[0].value)] + DenoteMembers(members[1..])
  }

  /** No object, at any depth, has a key twice: what a Python dict guarantees. */
  predicate WellFormed(v: Json)
    decreases v
  {
    match v
    case Arr(items) => forall i | 0 <= i < |items| :: WellFormed(items[i])
    case Obj(members) => DistinctKeys(members) && forall i | 0 <= i < |members| :: WellFormed(members[i].value)
    case _ => true
  }

  predicate DistinctKeys(members: seq<Member>) {
    forall i, j | 0 <= i < j < |members| :: members[i].key != members[j].key
  }

  /******* Printing *******/

  function Digit(d: int): char
    requires 0 <= d < 10
  {
    '0' + d as char
  }

  function Decimal(n: nat): string {
    if n < 10 then [Digit(n)] else Decimal(n / 10) + [Digit(n % 10)]
  }

  function EmitInt(n: int): string {
    if n < 0 then "-" + Decimal(-n) else Decimal(n)
  }

  function Hex(d: int): char
    requires 0 <= d < 16
  {
    if d < 10 then '0' + d as char else 'a' + (d - 10) as char
  }

  function Escape(c: char): string {
    if c == '\"' then "\\\""
    else if c == '\\' then "\\\\"
    else if c == '\n' then "\\n"
    else if c == '\r' then "\\r"
    else if c == '\t' then "\\t"
    else if c == '\U{0008}' then "\\b"
    else if c == '\U{000C}' then "\\f"
    else if c < ' ' then "\\u00" + [Hex(c as int / 16), Hex(c as int % 16)]
    else [c]
  }

  function EscapeAll(s: string): string {
    if s == "" then "" else Escape(s[0]) + EscapeAll(s[1..])
  }

  function EmitString(s: string): string {
    "\"" + EscapeAll(s) + "\""
  }

  function Emit(v: Json): string
    decreases v
  {
    match v
    case Null => "null"
    case Bool(b) => if b then "true" else "false"
    case Int(n) => EmitInt(n)
    case Str(s) => EmitString(s)
    case Arr(items) => "[" + EmitItems(items) + "]"
    case Obj(members) => "{" + EmitMembers(members) + "}"
  }

  function EmitItems(items: seq<Json>): string
    decreases items
  {
    if items == [] then ""
    else Emit(items[0]) + (if |items| == 1 then "" else "," + EmitItems(items[1..]))
  }

  function EmitMembers(members: seq<Member>): string
    decreases members
  {
    if members == [] then ""
    else EmitString(members[0].key) + ":" + Emit(members[0].value) + (
           if |members| == 1 then "" else "," + EmitMembers(members[1..]))
  }

  /******* Sorted keys *******/

  /** Order of strings by code point. */
  predicate KeyLess(a: string, b: string) {
    b != "" && (a == "" || a[0] < b[0] || (a[0] == b[0] && KeyLess(a[1..], b[1..])))
  }

  function Insert(m: Member, members: seq<Member>): seq<Member> {
    if members == [] || KeyLess(m.key, members[0].key) then [m] + members
    else [members[0]] + Insert(m, members[1..])
  }

  function Sort(members: seq<Member>): seq<Member> {
    if members == [] then [] else Insert(members[0], Sort(members[1..]))
  }

  /** The same value with the keys of every object sorted. */
  function Canon(v: Json): Json
    decreases v
  {
    match v
    case Arr(items) => Arr(CanonItems(items))
    case Obj(members) => Obj(Sort(CanonMembers(members)))
    case _ => v
  }

  function CanonItems(items: seq<Json>): (r: seq<Json>)
    ensures |r| == |items| && forall i :: 0 <= i < |items| ==> r[i] == Canon(items[i])
    decreases items
  {
    if items == [] then [] else [Canon(items[0])] + CanonItems(items[1..])
  }

  function CanonMembers(members: seq<Member>): (r: seq<Member>)
    ensures |r| == |members| && forall i :: 0 <= i < |members| ==> r[i] == Member(members[i].key, Canon(members[i].value))
    decreases members
  {
    if members == [] then [] else [Member(members[0].key, Canon(members[0].value))] + CanonMembers(members[1..])
  }

  /** json.dumps with sorted keys, no blanks and non-ASCII characters kept. */
  function CanonicalText(v: Json): string {
    Emit(Canon(v))
  }

  /******* Reading *******/

  datatype Parsed<+T> = Bad | Got(value: T, rest: string)

  function ReadNat(t: string, acc: nat): (nat, string) {
    if t != "" && '0' <= t[0] <= '9' then ReadNat(t[1..], acc * 10 + (t[0] as int - '0' as int)) else (acc, t)
  }

  lemma {:induction t, acc} ReadNatShrinks(t: string, acc: nat)
    ensures |ReadNat(t, acc).1| <= |t|
    ensures t != "" && '0' <= t[0] <= '9' ==> |ReadNat(t, acc).1| < |t|
  {
  }

  function HexValue(c: char): int {
    if '0' <= c <= '9' then c as int - '0' as int
    else if 'a' <= c <= 'f' then c as int - 'a' as int + 10
    else -1
  }

  /** One character of a string literal and what follows it. */
  function ReadChar(t: string): (r: Parsed<char>)
    ensures r.Got? ==> |r.rest| < |t|
  {
    if t == "" || t[0] == '\"' || t[0] < ' ' then Bad
    else if t[0] != '\\' then Got(t[0], t[1..])
    else if |t| < 2 then Bad
    else match t[1]
      case '\"' => Got('\"', t[2..])
      case '\\' => Got('\\', t[2..])
      case 'n' => Got('\n', t[2..])
      case 'r' => Got('\r', t[2..])
      case 't' => Got('\t', t[2..])
      case 'b' => Got('\U{0008}', t[2..])
      case 'f' => Got('\U{000C}', t[2..])
      case 'u' =>
        if |t| < 6 || t[2] != '0' || t[3] != '0' || HexValue(t[4]) < 0 || HexValue(t[5]) < 0 then Bad
        else Got((HexValue(t[4]) * 16 + HexValue(t[5])) as char, t[6..])
      case _ => Bad
  }

  /** The rest of a string literal after its opening quote. */
  function ReadChars(t: string): (r: Parsed<string>)
    ensures r.Got? ==> |r.rest| < |t|
    decreases |t|
  {
    if t != "" && t[0] == '\"' then Got("", t[1..])
    else match ReadChar(t)
      case Bad => Bad
      case Got(c, rest) =>
        match ReadChars(rest)
        case Bad => Bad
        case Got(s, rest') => Got([c] + s, rest')
  }

  function ReadInt(t: string): (r: Parsed<Json>)
    ensures r.Got? ==> |r.rest| < |t|
  {
    ReadNatShrinks(t, 0);
    if t == "" then Bad
    else if '0' <= t[0] <= '9' then var (n, rest) := ReadNat(t, 0); Got(Int(n), rest)
    else if t[0] == '-' && |t| > 1 && '0' <= t[1] <= '9' then
      ReadNatShrinks(t[1..], 0);
      var (n, rest) := ReadNat(t[1..], 0); Got(Int(0 - n), rest)
    else Bad
  }

  function Read(t: string): (r: Parsed<Json>)
    ensures r.Got? ==> |r.rest| < |t|
    decreases |t|, 1
  {
    if t == "" then Bad
    else match t[0]
      case 'n' => if "null" <= t then Got(Null, t[4..]) else Bad
      case 't' => if "true" <= t then Got(Bool(true), t[4..]) else Bad
      case 'f' => if "false" <= t then Got(Bool(false), t[5..]) else Bad
      case '\"' => (match ReadChars(t[1..]) case Bad => Bad case Got(s, rest) => Got(Str(s), rest))
      case '[' =>
        if |t| > 1 && t[1] == ']' then Got(Arr([]), t[2..])
        else (match ReadItems(t[1..]) case Bad => Bad case Got(items, rest) => Got(Arr(items), rest))
      case '{' =>
        if |t| > 1 && t[1] == '}' then Got(Obj([]), t[2..])
        else (match ReadMembers(t[1..]) case Bad => Bad case Got(members, rest) => Got(Obj(members), rest))
      case _ => ReadInt(t)
  }

  /** One or more items up to and including the closing bracket. */
  function ReadItems(t: string): (r: Parsed<seq<Json>>)
    ensures r.Got? ==> |r.rest| < |t|
    decreases |t|, 2
  {
    match Read(t)
    case Bad => Bad
    case Got(v, rest) =>
      if rest == "" then Bad
      else if rest[0] == ']' then Got([v], rest[1..])
      else if rest[0] == ',' then
        (match ReadItems(rest[1..]) case Bad => Bad case Got(vs, rest') => Got([v] + vs, rest'))
      else Bad
  }

  function ReadMembers(t: string): (r: Parsed<seq<Member>>)
    ensures r.Got? ==> |r.rest| < |t|
    decreases |t|, 2
  {
    if t == "" || t[0] != '\"' then Bad
    else match ReadChars(t[1..])
      case Bad => Bad
      case Got(k, rest) =>
        if rest == "" || rest[0] != ':' then Bad
        else match Read(rest[1..])
          case Bad => Bad
          case Got(v, rest') =>
            if rest' == "" then Bad
            else if rest'[0] == '}' then Got([Member(k, v)], rest'[1..])
            else if rest'[0] == ',' then
              (match ReadMembers(rest'[1..]) case Bad => Bad case Got(ms, rest'') => Got([Member(k, v)] + ms, rest''))
            else Bad
  }

  /** A whole text is one value with nothing after it. */
  function Loads(t: string): Option<Json> {
    match Read(t)
    case Got(v, rest) => if rest == "" then Some(v) else None
    case Bad => None
  }

  /******* Reading undoes printing *******/

  predicate Stops(rest: string) {
    rest != "" ==> !('0' <= rest[0] <= '9')
  }

  lemma {:induction false} ReadDecimal(n: nat, rest: string)
    ensures ReadNat(Decimal(n) + rest, 0) == ReadNat(rest, n)
    ensures Decimal(n) != "" && '0' <= Decimal(n)[0] <= '9'
  {
    var last := [Digit(n % 10)];
    assert ReadNat(last + rest, n / 10) == ReadNat(rest, n) by { assert (last + rest)[1..] == rest; }
    if n >= 10 {
      ReadDecimal(n / 10, last + rest);
      assert Decimal(n) + rest == Decimal(n / 10) + (last + rest);
    }
  }

  lemma ReadEscape(c: char, rest: string)
    ensures ReadChar(Escape(c) + rest) == Got(c, rest)
    ensures Escape(c) != "" && Escape(c)[0] != '\"'
  {
    var e := Escape(c);
    assert (e + rest)[|e|..] == rest;
  }

  lemma ReadCharsStep(c: char, tail: string, s: string, rest: string)
    requires ReadChars(tail) == Got(s, rest)
    ensures ReadChars(Escape(c) + tail) == Got([c] + s, rest)
  {
    ReadEscape(c, tail);
    hide Escape, ReadChar;
  }

  lemma EscapeFirst(s: string, rest: string)
    requires s != ""
    ensures EscapeAll(s) + "\"" + rest == Escape(s[0]) + (EscapeAll(s[1..]) + "\"" + rest)
    ensures [s[0]] + s[1..] == s
  {
    hide Escape;
  }

  lemma {:induction false} ReadEscapeAll(s: string, rest: string)
    ensures ReadChars(EscapeAll(s) + "\"" + rest) == Got(s, rest)
  {
    if s == "" {
      assert EscapeAll(s) + "\"" + rest == "\"" + rest;
    } else {
      hide *;
      ReadEscapeAll(s[1..], rest);
      ReadCharsStep(s[0], EscapeAll(s[1..]) + "\"" + rest, s[1..], rest);
      EscapeFirst(s, rest);
    }
  }

  lemma ReadEmitInt(n: int, rest: string)
    requires Stops(rest)
    ensures Read(EmitInt(n) + rest) == Got(Int(n), rest)
    ensures EmitInt(n) != "" && EmitInt(n)[0] != ']'
  {
    ReadDecimal(if n < 0 then -n else n, rest);
    if n < 0 {
      assert (EmitInt(n) + rest)[1..] == Decimal(-n) + rest;
    }
  }

  lemma ReadWord(word: string, rest: string)
    ensures word <= word + rest && (word + rest)[|word|..] == rest
  {
  }

  lemma ReadQuoted(s: string, rest: string)
    ensures Read(EmitString(s) + rest) == Got(Str(s), rest)
  {
    ReadEscapeAll(s, rest);
    assert (EmitString(s) + rest)[1..] == EscapeAll(s) + "\"" + rest;
  }

  lemma ReadArray(body: string, items: seq<Json>, rest: string)
    requires body != "" && body[0] != ']' && ReadItems(body) == Got(items, rest)
    ensures Read("[" + body) == Got(Arr(items), rest)
  {
    assert ("[" + body)[1..] == body;
  }

  lemma ReadObject(body: string, members: seq<Member>, rest: string)
    requires body != "" && body[0] != '}' && ReadMembers(body) == Got(members, rest)
    ensures Read("{" + body) == Got(Obj(members), rest)
  {
    assert ("{" + body)[1..] == body;
  }

  lemma ReadLastItem(t: string, v: Json, rest: string)
    requires Read(t) == Got(v, "]" + rest)
    ensures ReadItems(t) == Got([v], rest)
  {
    assert ("]" + rest)[1..] == rest;
  }

  lemma ReadNextItem(t: string, v: Json, tail: string, vs: seq<Json>, rest: string)
    requires Read(t) == Got(v, "," + tail) && ReadItems(tail) == Got(vs, rest)
    ensures ReadItems(t) == Got([v] + vs, rest)
  {
    assert ("," + tail)[1..] == tail;
  }

  lemma ReadMember(k: string, t: string, v: Json, tail: string)
    requires Read(t) == Got(v, tail)
    ensures tail != "" && tail[0] == '}' ==> ReadMembers(EmitString(k) + ":" + t) == Got([Member(k, v)], tail[1..])
    ensures tail != "" && tail[0] == ',' && ReadMembers(tail[1..]).Got? ==>
              var r := ReadMembers(tail[1..]);
              ReadMembers(EmitString(k) + ":" + t) == Got([Member(k, v)] + r.value, r.rest)
  {
    ReadEscapeAll(k, ":" + t);
    var text := EmitString(k) + ":" + t;
    assert text[1..] == EscapeAll(k) + "\"" + (":" + t);
    assert (":" + t)[1..] == t;
  }

  lemma EmitStarts(v: Json)
    ensures Emit(v) != "" && Emit(v)[0] != ']'
  {
    if v.Int? { ReadEmitInt(v.n, ""); }
  }

  lemma ReadScalar(v: Json, rest: string)
    requires Stops(rest) && !v.Arr? && !v.Obj?
    ensures Read(Emit(v) + rest) == Got(v, rest)
  {
    match v
    case Null => ReadWord("null", rest);
    case Bool(b) => ReadWord(Emit(v), rest);
    case Int(n) => ReadEmitInt(n, rest); hide Read;
    case Str(s) => ReadQuoted(s, rest); hide Read;
  }

  lemma ReadEmpty(rest: string)
    ensures Read("[]" + rest) == Got(Arr([]), rest)
    ensures Read("{}" + rest) == Got(Obj([]), rest)
  {
    assert ("[]" + rest)[2..] == rest && ("{}" + rest)[2..] == rest;
  }

  lemma EmitBrackets(v: Json, rest: string)
    ensures v.Arr? && v.items == [] ==> Emit(v) + rest == "[]" + rest
    ensures v.Arr? && v.items != [] ==> Emit(v) + rest == "[" + (EmitItems(v.items) + "]" + rest)
    ensures v.Obj? && v.members == [] ==> Emit(v) + rest == "{}" + rest
    ensures v.Obj? && v.members != [] ==> Emit(v) + rest == "{" + (EmitMembers(v.members) + "}" + rest)
  {
    var e := Emit(v);
    if v.Arr? {
      hide EmitMembers;
      assert e == "[" + EmitItems(v.items) + "]";
      hide *;
      if v.items != [] { assert e + rest == "[" + (EmitItems(v.items) + "]" + rest); }
    } else if v.Obj? {
      hide EmitItems;
      assert e == "{" + EmitMembers(v.members) + "}";
      hide *;
      if v.members != [] { assert e + rest == "{" + (EmitMembers(v.members) + "}" + rest); }
    }
  }

  /** Printing and reading back gives the same value, with members in the same order. */
  lemma {:induction false} ReadEmit(v: Json, rest: string)
    requires Stops(rest)
    ensures Read(Emit(v) + rest) == Got(v, rest)
    decreases v, 0
  {
    hide *;
    match v
    case Arr(items) =>
      EmitBrackets(v, rest);
      if items == [] {
        ReadEmpty(rest);
      } else {
        ReadEmitItems(items, rest);
        ReadArray(EmitItems(items) + "]" + rest, items, rest);
      }
    case Obj(members) =>
      EmitBrackets(v, rest);
      if members == [] {
        ReadEmpty(rest);
      } else {
        ReadEmitMembers(members, rest);
        ReadObject(EmitMembers(members) + "}" + rest, members, rest);
      }
    case _ => ReadScalar(v, rest);
  }

  lemma EmitOneItem(items: seq<Json>)
    requires |items| == 1
    ensures EmitItems(items) == Emit(items[0])
  {
    hide Emit;
  }

  lemma EmitFirstItem(items: seq<Json>)
    requires |items| > 1
    ensures EmitItems(items) == Emit(items[0]) + "," + EmitItems(items[1..])
  {
    hide Emit;
  }

  lemma NestItems(first: string, more: string, rest: string)
    ensures first + "]" + rest == first + ("]" + rest)
    ensures first + "," + more + "]" + rest == first + ("," + (more + "]" + rest))
  {
  }

  lemma StopsAt(rest: string)
    ensures Stops("]" + rest) && Stops("," + rest)
  {
  }

  lemma {:induction false} ReadEmitItems(items: seq<Json>, rest: string)
    requires items != []
    ensures ReadItems(EmitItems(items) + "]" + rest) == Got(items, rest)
    ensures EmitItems(items) != "" && EmitItems(items)[0] != ']'
    decreases items, 1
  {
    hide *;
    var v, tail := items[0], EmitItems(items[1..]) + "]" + rest;
    EmitStarts(v);
    NestItems(Emit(v), EmitItems(items[1..]), rest);
    StopsAt(rest);
    StopsAt(tail);
    if |items| == 1 {
      assert items == [v];
      EmitOneItem(items);
      ReadEmit(v, "]" + rest);
      ReadLastItem(EmitItems(items) + "]" + rest, v, rest);
    } else {
      assert items == [v] + items[1..];
      EmitFirstItem(items);
      ReadEmitItems(items[1..], rest);
      ReadEmit(v, "," + tail);
      ReadNextItem(EmitItems(items) + "]" + rest, v, tail, items[1..], rest);
    }
  }

  function AfterMember(members: seq<Member>, rest: string): string
    requires members != []
  {
    EmitMore(members) + "}" + rest
  }

  lemma Regroup(k: string, v: string, more: string, rest: string)
    ensures k + ":" + v + more + "}" + rest == k + ":" + (v + (more + "}" + rest))
  {
  }

  function EmitMore(members: seq<Member>): string
    requires members != []
  {
    if |members| == 1 then "" else "," + EmitMembers(members[1..])
  }

  lemma EmitSplits(members: seq<Member>)
    requires members != []
    ensures EmitMembers(members) == EmitString(members[0].key) + ":" + Emit(members[0].value) + EmitMore(members)
  {
    hide Emit, EmitString;
  }

  lemma EmitFirstMember(members: seq<Member>, rest: string)
    requires members != []
    ensures
      EmitMembers(members) + "}" + rest
      == EmitString(members[0].key) + ":" + (Emit(members[0].value) + AfterMember(members, rest))
    ensures EmitMembers(members) != "" && EmitMembers(members)[0] == '\"'
  {
    EmitSplits(members);
    assert EmitString(members[0].key)[0] == '\"';
    hide Emit, EmitString, EmitMembers;
    Regroup(EmitString(members[0].key), Emit(members[0].value), EmitMore(members), rest);
  }

  lemma AfterMemberTail(members: seq<Member>, rest: string)
    requires members != []
    ensures AfterMember(members, rest) != "" && AfterMember(members, rest)[0] == if |members| == 1 then '}' else ','
    ensures Stops(AfterMember(members, rest))
    ensures AfterMember(members, rest)[1..] == if |members| == 1 then rest else EmitMembers(members[1..]) + "}" + rest
  {
    hide EmitMembers;
  }

  lemma {:induction false} ReadEmitMembers(members: seq<Member>, rest: string)
    requires members != []
    ensures ReadMembers(EmitMembers(members) + "}" + rest) == Got(members, rest)
    ensures EmitMembers(members) != "" && EmitMembers(members)[0] == '\"'
    decreases members, 1
  {
    hide *;
    var Member(k, v) := members[0];
    var tail := AfterMember(members, rest);
    EmitFirstMember(members, rest);
    AfterMemberTail(members, rest);
    ReadEmit(v, tail);
    ReadMember(k, Emit(v) + tail, v, tail);
    if |members| == 1 {
      assert members == [Member(k, v)];
    } else {
      ReadEmitMembers(members[1..], rest);
      assert members == [Member(k, v)] + members[1..];
    }
  }

  /** The canonical text of a value reads back as that value with its keys sorted. */
  lemma LoadsCanonicalText(v: Json)
    ensures Loads(CanonicalText(v)) == Some(Canon(v))
  {
    ReadEmit(Canon(v), "");
    assert CanonicalText(v) + "" == CanonicalText(v);
  }
}
