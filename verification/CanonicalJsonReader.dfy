/**
 A reader that inverts the canonical text, and with it the theorem that the text identifies a value up to the order of
 object keys. The tokens are those of sections 3, 6 and 7 of RFC 8259.
 */
module CanonicalJsonReader {
  import opened CanonicalJson

  datatype Read<+T> = Failed | Got(value: T, rest: Text)

  // ---- reading ----

  /** The value of a hexadecimal digit, -1 for another unit. */
  function HexValue(u: Unit): int {
    if IsDigit(u) then u - '0' as int
    else if 'a' as int <= u <= 'f' as int then u - 'a' as int + 10
    else if 'A' as int <= u <= 'F' as int then u - 'A' as int + 10
    else -1
  }

  predicate HexFour(t: Text) {
    |t| == 4 && forall i :: 0 <= i < 4 ==> 0 <= HexValue(t[i]) < 16
  }

  function FourValue(t: Text): Unit
    requires HexFour(t)
  {
    HexValue(t[0]) * 4096 + HexValue(t[1]) * 256 + HexValue(t[2]) * 16 + HexValue(t[3])
  }

  /** The unit that a two-character escape stands for, -1 for none. */
  function Simple(u: Unit): int {
    if u == QUOTE || u == BACKSLASH || u == '/' as int then u
    else if u == 'b' as int then 8
    else if u == 't' as int then 9
    else if u == 'n' as int then 10
    else if u == 'f' as int then 12
    else if u == 'r' as int then 13
    else -1
  }

  function Prepend(u: Unit, r: Read<Text>): Read<Text> {
    if r.Got? then Got([u] + r.value, r.rest) else Failed
  }

  /** The content of a string, from after its opening quote. */
  function ReadString(t: Text): (r: Read<Text>)
    ensures r.Got? ==> |r.rest| < |t|
    decreases |t|
  {
    if t == [] || t[0] < 32 then Failed
    else if t[0] == QUOTE then Got([], t[1..])
    else if t[0] != BACKSLASH then Prepend(t[0], ReadString(t[1..]))
    else if |t| < 2 then Failed
    else if t[1] == 'u' as int then
      if |t| >= 6 && HexFour(t[2..6]) then Prepend(FourValue(t[2..6]), ReadString(t[6..])) else Failed
    else if 0 <= Simple(t[1]) < 0x10000 then Prepend(Simple(t[1]), ReadString(t[2..]))
    else Failed
  }

  function NumberLength(t: Text): (n: nat)
    ensures n <= |t|
  {
    if t == [] || !NumberUnit(t[0]) then 0 else 1 + NumberLength(t[1..])
  }

  predicate StartsWith(t: Text, prefix: Text) { |prefix| <= |t| && t[..|prefix|] == prefix }

  function ReadValue(t: Text): (r: Read<Json>)
    ensures r.Got? ==> |r.rest| < |t|
    decreases |t|, 0
  {
    if t == [] then Failed
    else if t[0] == QUOTE then
      var s := ReadString(t[1..]);
      if s.Got? then Got(Str(s.value), s.rest) else Failed
    else if t[0] == OPEN_BRACKET then
      if |t| > 1 && t[1] == CLOSE_BRACKET then Got(Arr([]), t[2..])
      else
        var items := ReadItems(t[1..]);
        if items.Got? then Got(Arr(items.value), items.rest) else Failed
    else if t[0] == OPEN_BRACE then
      if |t| > 1 && t[1] == CLOSE_BRACE then Got(Obj([]), t[2..])
      else
        var ms := ReadMembers(t[1..]);
        if ms.Got? then Got(Obj(ms.value), ms.rest) else Failed
    else if StartsWith(t, NULL_TEXT) then Got(Null, t[4..])
    else if StartsWith(t, TRUE_TEXT) then Got(Bool(true), t[4..])
    else if StartsWith(t, FALSE_TEXT) then Got(Bool(false), t[5..])
    else if NumberLength(t) > 0 then Got(Num(t[..NumberLength(t)]), t[NumberLength(t)..])
    else Failed
  }

  function ReadItems(t: Text): (r: Read<seq<Json>>)
    ensures r.Got? ==> |r.rest| < |t|
    decreases |t|, 1
  {
    var v := ReadValue(t);
    if v.Failed? || v.rest == [] then Failed
    else if v.rest[0] == CLOSE_BRACKET then Got([v.value], v.rest[1..])
    else if v.rest[0] != COMMA then Failed
    else
      var more := ReadItems(v.rest[1..]);
      if more.Got? then Got([v.value] + more.value, more.rest) else Failed
  }

  function ReadMember(t: Text): (r: Read<Member>)
    ensures r.Got? ==> |r.rest| < |t|
    decreases |t|, 0
  {
    if t == [] || t[0] != QUOTE then Failed
    else
      var key := ReadString(t[1..]);
      if key.Failed? || key.rest == [] || key.rest[0] != COLON then Failed
      else
        var v := ReadValue(key.rest[1..]);
        if v.Got? then Got(Member(key.value, v.value), v.rest) else Failed
  }

  function ReadMembers(t: Text): (r: Read<seq<Member>>)
    ensures r.Got? ==> |r.rest| < |t|
    decreases |t|, 1
  {
    var m := ReadMember(t);
    if m.Failed? || m.rest == [] then Failed
    else if m.rest[0] == CLOSE_BRACE then Got([m.value], m.rest[1..])
    else if m.rest[0] != COMMA then Failed
    else
      var more := ReadMembers(m.rest[1..]);
      if more.Got? then Got([m.value] + more.value, more.rest) else Failed
  }

  // ---- the value with its keys sorted ----

  function Normal(j: Json): Json
    decreases j, 1, 0
  {
    match j
    case Arr(items) => Arr(NormalItems(j, 0))
    case Obj(ms) => SortedKeysOf(ms); Obj(NormalEntries(j, SortedKeys(ms)))
    case _ => j
  }

  function NormalItems(j: Json, i: nat): (r: seq<Json>)
    requires j.Arr? && i <= |j.items|
    ensures |r| == |j.items| - i
    ensures forall k :: 0 <= k < |r| ==> r[k] == Normal(j.items[i + k])
    decreases j, 0, |j.items| - i
  {
    if i == |j.items| then [] else [Normal(j.items[i])] + NormalItems(j, i + 1)
  }

  function NormalEntries(j: Json, keys: seq<Text>): (r: seq<Member>)
    requires j.Obj? && forall k :: k in keys ==> HasKey(j.members, k)
    ensures |r| == |keys|
    ensures forall i :: 0 <= i < |r| ==> r[i] == Member(keys[i], Normal(j.members[IndexOf(j.members, keys[i])].value))
    decreases j, 0, |keys|
  {
    if keys == [] then []
    else [Member(keys[0], Normal(j.members[IndexOf(j.members, keys[0])].value))] + NormalEntries(j, keys[1..])
  }

  // ---- strings ----

  lemma HexDigitBack(d: int)
    requires 0 <= d < 16
    ensures HexValue(HexDigit(d)) == d
  {
  }

  lemma FourBack(u: Unit)
    ensures HexFour(HexDigits(u)) && FourValue(HexDigits(u)) == u
  {
    HexDigitBack(u / 16 / 16 / 16);
    HexDigitBack(u / 16 / 16 % 16);
    HexDigitBack(u / 16 % 16);
    HexDigitBack(u % 16);
    assert u == u / 16 * 16 + u % 16;
  }

  lemma UnitBack(u: Unit, rest: Text)
    ensures ReadString(EscapeUnit(u) + rest) == Prepend(u, ReadString(rest))
  {
    var e := EscapeUnit(u);
    assert (e + rest)[|e|..] == rest;
    if |e| == 6 {
      FourBack(u);
      hide HexFour, FourValue, HexDigits, HexDigit;
      assert (e + rest)[2..6] == HexDigits(u);
    }
  }

  lemma PairBack(lead: Unit, trail: Unit, rest: Text)
    requires Lead(lead) && Trail(trail)
    ensures ReadString([lead, trail] + rest) == Prepend(lead, Prepend(trail, ReadString(rest)))
  {
    assert ([lead, trail] + rest)[1..] == [trail] + rest && ([trail] + rest)[1..] == rest;
  }

  lemma EndBack(rest: Text)
    ensures ReadString([] + ([QUOTE] + rest)) == Got([], rest)
  {
    assert [] + ([QUOTE] + rest) == [QUOTE] + rest && ([QUOTE] + rest)[1..] == rest;
  }

  lemma {:induction false} StringBack(s: Text, rest: Text)
    ensures ReadString(Escaped(s) + ([QUOTE] + rest)) == Got(s, rest)
  {
    hide EscapeUnit, HexFour, FourValue, ReadString;
    var tail := [QUOTE] + rest;
    if |s| == 0 {
      EndBack(rest);
    } else if |s| > 1 && Lead(s[0]) && Trail(s[1]) {
      StringBack(s[2..], rest);
      PairBack(s[0], s[1], Escaped(s[2..]) + tail);
      assert Escaped(s) + tail == [s[0], s[1]] + (Escaped(s[2..]) + tail);
      assert s == [s[0]] + ([s[1]] + s[2..]);
    } else {
      StringBack(s[1..], rest);
      UnitBack(s[0], Escaped(s[1..]) + tail);
      assert Escaped(s) + tail == EscapeUnit(s[0]) + (Escaped(s[1..]) + tail);
      assert s == [s[0]] + s[1..];
    }
  }

  // ---- values ----

  predicate Ends(rest: Text) { rest == [] || !NumberUnit(rest[0]) }

  lemma {:induction false} NumberBack(token: Text, rest: Text)
    requires forall i :: 0 <= i < |token| ==> NumberUnit(token[i])
    requires Ends(rest)
    ensures NumberLength(token + rest) == |token|
  {
    if token == [] {
      assert token + rest == rest;
    } else {
      NumberBack(token[1..], rest);
      assert (token + rest)[1..] == token[1..] + rest;
    }
  }

  /** No text starts with a closing bracket or brace. */
  lemma StartsNoClose(j: Json)
    requires Valid(j)
    ensures |Canonicalize(j)| > 0 && Canonicalize(j)[0] != CLOSE_BRACKET && Canonicalize(j)[0] != CLOSE_BRACE
  {
    if j.Num? {
      NumberUnits(j.token);
    }
  }

  lemma WordBack(t: Text, rest: Text)
    requires t == NULL_TEXT || t == TRUE_TEXT || t == FALSE_TEXT
    ensures ReadValue(t + rest)
            == Got(if t == NULL_TEXT then Null else Bool(t == TRUE_TEXT), rest)
  {
    hide ReadString, ReadItems, ReadMembers, NumberLength;
    assert (t + rest)[|t|..] == rest && (t + rest)[..|t|] == t;
    assert (t + rest)[0] == t[0];
    assert t != NULL_TEXT ==> (t + rest)[..4][0] != NULL_TEXT[0];
    assert t == FALSE_TEXT ==> (t + rest)[..4][0] != TRUE_TEXT[0];
  }

  lemma QuotedBack(s: Text, rest: Text)
    ensures ReadValue(Quoted(s) + rest) == Got(Str(s), rest)
  {
    StringBack(s, rest);
    hide ReadString, Escaped, ReadItems, ReadMembers, NumberLength, StartsWith;
    assert (Quoted(s) + rest)[1..] == Escaped(s) + ([QUOTE] + rest);
  }

  lemma TokenBack(token: Text, rest: Text)
    requires IsNumber(token) && Ends(rest)
    ensures ReadValue(token + rest) == Got(Num(token), rest)
  {
    NumberUnits(token);
    NumberBack(token, rest);
    hide IsNumber, NumberLength, ReadString, ReadItems, ReadMembers;
    var t := token + rest;
    assert t[0] == token[0] && t[..|token|] == token && t[|token|..] == rest;
    assert !StartsWith(t, NULL_TEXT) && !StartsWith(t, TRUE_TEXT) && !StartsWith(t, FALSE_TEXT) by {
      assert |t| >= 4 ==> t[..4][0] == token[0];
      assert |t| >= 5 ==> t[..5][0] == token[0];
    }
  }

  lemma BracketBack(items: Text, rest: Text)
    requires |items| > 0 && items[0] != CLOSE_BRACKET
    requires ReadItems(items + ([CLOSE_BRACKET] + rest)).Got?
    ensures var r := ReadItems(items + ([CLOSE_BRACKET] + rest));
            ReadValue([OPEN_BRACKET] + items + [CLOSE_BRACKET] + rest) == Got(Arr(r.value), r.rest)
  {
    hide ReadValue, ReadItems, ReadMembers;
    var body := items + ([CLOSE_BRACKET] + rest);
    assert [OPEN_BRACKET] + items + [CLOSE_BRACKET] + rest == [OPEN_BRACKET] + body;
    assert body[0] == items[0];
    OpenedBack(body);
  }

  lemma BraceBack(members: Text, rest: Text)
    requires |members| > 0 && members[0] != CLOSE_BRACE
    requires ReadMembers(members + ([CLOSE_BRACE] + rest)).Got?
    ensures var r := ReadMembers(members + ([CLOSE_BRACE] + rest));
            ReadValue([OPEN_BRACE] + members + [CLOSE_BRACE] + rest) == Got(Obj(r.value), r.rest)
  {
    hide ReadValue, ReadItems, ReadMembers;
    var body := members + ([CLOSE_BRACE] + rest);
    assert [OPEN_BRACE] + members + [CLOSE_BRACE] + rest == [OPEN_BRACE] + body;
    assert body[0] == members[0];
    OpenedBack(body);
  }

  lemma OpenedBack(body: Text)
    requires |body| > 0
    ensures body[0] != CLOSE_BRACKET && ReadItems(body).Got?
            ==> ReadValue([OPEN_BRACKET] + body) == Got(Arr(ReadItems(body).value), ReadItems(body).rest)
    ensures body[0] != CLOSE_BRACE && ReadMembers(body).Got?
            ==> ReadValue([OPEN_BRACE] + body) == Got(Obj(ReadMembers(body).value), ReadMembers(body).rest)
  {
    hide ReadString, ReadItems, ReadMembers, NumberLength, StartsWith;
    assert ([OPEN_BRACKET] + body)[1..] == body && ([OPEN_BRACE] + body)[1..] == body;
  }

  lemma EmptyBack(rest: Text)
    ensures ReadValue([OPEN_BRACKET] + [] + [CLOSE_BRACKET] + rest) == Got(Arr([]), rest)
    ensures ReadValue([OPEN_BRACE] + [] + [CLOSE_BRACE] + rest) == Got(Obj([]), rest)
  {
    hide ReadString, ReadItems, ReadMembers, NumberLength, StartsWith;
    assert ([OPEN_BRACKET] + [] + [CLOSE_BRACKET] + rest)[2..] == rest;
    assert ([OPEN_BRACE] + [] + [CLOSE_BRACE] + rest)[2..] == rest;
  }

  lemma {:induction false} ValueBack(j: Json, rest: Text)
    requires Valid(j) && Ends(rest)
    ensures ReadValue(Canonicalize(j) + rest) == Got(Normal(j), rest)
    decreases j, 1, 0
  {
    hide ReadValue, ReadItems, ReadMembers, IsNumber, Quoted, SortedKeys;
    match j
    case Null => WordBack(NULL_TEXT, rest);
    case Bool(b) => WordBack(if b then TRUE_TEXT else FALSE_TEXT, rest);
    case Num(token) => TokenBack(token, rest);
    case Str(s) => QuotedBack(s, rest);
    case Arr(items) =>
      if |items| == 0 {
        EmptyBack(rest);
      } else {
        ItemsBack(j, 0, rest);
        StartsNoClose(items[0]);
        BracketBack(CanonicalItems(j, 0), rest);
      }
    case Obj(ms) =>
      SortedKeysOf(ms);
      SortSorts(ms);
      if |ms| == 0 {
        EmptyBack(rest);
      } else {
        EntriesBack(j, SortedKeys(ms), rest);
        StartsQuoted(j, SortedKeys(ms));
        BraceBack(CanonicalEntries(j, SortedKeys(ms)), rest);
      }
  }

  lemma StartsQuoted(j: Json, keys: seq<Text>)
    requires j.Obj? && |keys| > 0 && forall k :: k in keys ==> HasKey(j.members, k)
    ensures |CanonicalEntries(j, keys)| > 0 && CanonicalEntries(j, keys)[0] == QUOTE
  {
  }

  lemma {:induction false} ItemsBack(j: Json, i: nat, rest: Text)
    requires Valid(j) && j.Arr? && i < |j.items|
    ensures ReadItems(CanonicalItems(j, i) + ([CLOSE_BRACKET] + rest)) == Got(NormalItems(j, i), rest)
    decreases j, 0, |j.items| - i
  {
    hide ReadValue, Canonicalize, Normal, IsNumber;
    var first, close := Canonicalize(j.items[i]), [CLOSE_BRACKET] + rest;
    assert close[1..] == rest;
    if i + 1 == |j.items| {
      ValueBack(j.items[i], close);
      assert CanonicalItems(j, i) == first + [] + [];
      assert CanonicalItems(j, i) + close == first + close;
      assert NormalItems(j, i) == [Normal(j.items[i])];
    } else {
      var more := CanonicalItems(j, i + 1) + close;
      ValueBack(j.items[i], [COMMA] + more);
      ItemsBack(j, i + 1, rest);
      assert CanonicalItems(j, i) == first + [COMMA] + CanonicalItems(j, i + 1);
      assert CanonicalItems(j, i) + close == first + ([COMMA] + more);
      assert ([COMMA] + more)[1..] == more;
    }
  }

  lemma {:induction false} MemberBack(j: Json, key: Text, rest: Text)
    requires Valid(j) && j.Obj? && HasKey(j.members, key) && Ends(rest)
    ensures var v := j.members[IndexOf(j.members, key)].value;
            ReadMember(Quoted(key) + [COLON] + Canonicalize(v) + rest) == Got(Member(key, Normal(v)), rest)
    decreases j, 0, 0
  {
    hide ReadValue, ReadString, Canonicalize, Normal, IsNumber, Escaped;
    var v := j.members[IndexOf(j.members, key)].value;
    var t := Quoted(key) + [COLON] + Canonicalize(v) + rest;
    var after := [COLON] + (Canonicalize(v) + rest);
    StringBack(key, after);
    assert t[1..] == Escaped(key) + ([QUOTE] + after);
    assert after[1..] == Canonicalize(v) + rest;
    ValueBack(v, rest);
  }

  lemma {:induction false} EntriesBack(j: Json, keys: seq<Text>, rest: Text)
    requires Valid(j) && j.Obj? && |keys| > 0 && forall k :: k in keys ==> HasKey(j.members, k)
    ensures ReadMembers(CanonicalEntries(j, keys) + ([CLOSE_BRACE] + rest)) == Got(NormalEntries(j, keys), rest)
    decreases j, 0, |keys|
  {
    hide ReadMember, Canonicalize, Normal, IsNumber, Quoted;
    var v := j.members[IndexOf(j.members, keys[0])].value;
    var first, close := Quoted(keys[0]) + [COLON] + Canonicalize(v), [CLOSE_BRACE] + rest;
    assert close[1..] == rest;
    if |keys| == 1 {
      MemberBack(j, keys[0], close);
      assert CanonicalEntries(j, keys) == first + [] + [];
      assert CanonicalEntries(j, keys) + close == first + close;
      assert NormalEntries(j, keys) == [Member(keys[0], Normal(v))];
    } else {
      var more := CanonicalEntries(j, keys[1..]) + close;
      MemberBack(j, keys[0], [COMMA] + more);
      assert CanonicalEntries(j, keys) == first + [COMMA] + CanonicalEntries(j, keys[1..]);
      assert CanonicalEntries(j, keys) + close == first + ([COMMA] + more);
      assert ([COMMA] + more)[1..] == more;
      EntriesBack(j, keys[1..], rest);
    }
  }

  // ---- sorting keys keeps exactly the value up to key order ----

  lemma {:induction false} SameIsNormal(a: Json, b: Json)
    requires Valid(a) && Valid(b)
    ensures Same(a, b) <==> Normal(a) == Normal(b)
    decreases a, 1, 0
  {
    match a
    case Arr(items) =>
      if b.Arr? {
        SameItems(a, b);
      }
    case Obj(ms) =>
      if b.Obj? {
        SameMembers(a, b);
      }
    case _ =>
  }

  lemma {:induction false} SameItems(a: Json, b: Json)
    requires Valid(a) && Valid(b) && a.Arr? && b.Arr?
    ensures Same(a, b) <==> Normal(a) == Normal(b)
    decreases a, 0, 1
  {
    var p, q := NormalItems(a, 0), NormalItems(b, 0);
    if |a.items| == |b.items| {
      forall i | 0 <= i < |a.items| ensures Same(a.items[i], b.items[i]) <==> p[i] == q[i] {
        SameIsNormal(a.items[i], b.items[i]);
      }
      assert p == q <==> forall i :: 0 <= i < |p| ==> p[i] == q[i];
    } else {
      assert |p| != |q|;
    }
    assert Normal(a) == Arr(p) && Normal(b) == Arr(q);
  }

  lemma {:induction false} SameMembers(a: Json, b: Json)
    requires Valid(a) && Valid(b) && a.Obj? && b.Obj?
    ensures Same(a, b) <==> Normal(a) == Normal(b)
    decreases a, 0, 1
  {
    if Same(a, b) {
      SameThenNormal(a, b);
    }
    if Normal(a) == Normal(b) {
      NormalThenSame(a, b);
    }
  }

  lemma {:induction false} SameThenNormal(a: Json, b: Json)
    requires Valid(a) && Valid(b) && a.Obj? && b.Obj? && Same(a, b)
    ensures Normal(a) == Normal(b)
    decreases a, 0, 0
  {
    hide IsNumber, Insert, Ascending;
    var ms, ns := a.members, b.members;
    SortSorts(ms);
    SortSorts(ns);
    SameKeys(a, b);
    AscendingUnique(SortedKeys(ms), SortedKeys(ns));
    var keys := SortedKeys(ms);
    var p, q := NormalEntries(a, keys), NormalEntries(b, keys);
    forall i | 0 <= i < |p| ensures p[i] == q[i] {
      var k := keys[i];
      assert k in keys;
      var n := IndexOf(ms, k);
      assert ms[n].key == k;
      SameIsNormal(ms[n].value, ns[IndexOf(ns, k)].value);
    }
    assert p == q;
  }

  lemma {:induction false} NormalThenSame(a: Json, b: Json)
    requires Valid(a) && Valid(b) && a.Obj? && b.Obj? && Normal(a) == Normal(b)
    ensures Same(a, b)
    decreases a, 0, 0
  {
    hide IsNumber, Insert, Ascending;
    var ms, ns := a.members, b.members;
    SortSorts(ms);
    SortSorts(ns);
    var keys, other := SortedKeys(ms), SortedKeys(ns);
    var p, q := NormalEntries(a, keys), NormalEntries(b, other);
    assert p == q;
    forall i | 0 <= i < |ms|
      ensures HasKey(ns, ms[i].key) && Same(ms[i].value, ns[IndexOf(ns, ms[i].key)].value)
    {
      var k := ms[i].key;
      assert HasKey(ms, k) && k in keys;
      var n :| 0 <= n < |keys| && keys[n] == k;
      assert p[n] == q[n] && other[n] == k && k in other;
      assert IndexOf(ms, k) == i;
      SameIsNormal(ms[i].value, ns[IndexOf(ns, k)].value);
    }
  }

  lemma SameKeys(a: Json, b: Json)
    requires Valid(a) && Valid(b) && a.Obj? && b.Obj? && Same(a, b)
    ensures forall k :: HasKey(a.members, k) <==> HasKey(b.members, k)
  {
    var ms, ns := a.members, b.members;
    SortSorts(ms);
    SortSorts(ns);
    var p, q := SortedKeys(ms), SortedKeys(ns);
    forall k | k in p ensures k in q {
      var i :| 0 <= i < |ms| && ms[i].key == k;
      assert HasKey(ns, ms[i].key);
    }
    SameSizeSubset(p, q);
    forall k ensures HasKey(ms, k) <==> HasKey(ns, k) {
      assert k in p <==> k in q;
    }
  }

  /** Of two ascending lists of one length, one cannot hold the other properly. */
  lemma SameSizeSubset(p: seq<Text>, q: seq<Text>)
    requires Ascending(p) && Ascending(q) && |p| == |q| && forall k :: k in p ==> k in q
    ensures forall k :: k in q ==> k in p
  {
    var a, b := set k | k in p, set k | k in q;
    AscendingSize(p);
    AscendingSize(q);
    assert |b| == |a + (b - a)| == |a| + |b - a| by {
      assert b == a + (b - a);
    }
    assert b - a == {};
    forall k | k in q ensures k in p {
      assert k in b && k !in b - a;
    }
  }

  lemma {:induction false} AscendingSize(p: seq<Text>)
    requires Ascending(p)
    ensures |set k | k in p| == |p|
  {
    if p != [] {
      var rest := p[1..];
      AscendingSize(rest);
      TailOf(p, p[0]);
      assert (set k | k in p) == {p[0]} + set k | k in rest;
    }
  }

  // ---- the canonical text identifies the value ----

  lemma {:induction false} NormalIsSame(j: Json)
    requires Valid(j)
    ensures Same(j, Normal(j))
    decreases j
  {
    match j
    case Arr(items) =>
      forall i | 0 <= i < |items| ensures Same(items[i], Normal(items[i])) {
        NormalIsSame(items[i]);
      }
    case Obj(ms) =>
      SortSorts(ms);
      var ns := NormalEntries(j, SortedKeys(ms));
      forall i | 0 <= i < |ms| ensures HasKey(ns, ms[i].key) && Same(ms[i].value, ns[IndexOf(ns, ms[i].key)].value) {
        var k := ms[i].key;
        assert HasKey(ms, k);
        var n :| 0 <= n < |ns| && SortedKeys(ms)[n] == k;
        assert ns[n].key == k;
        assert IndexOf(ms, k) == i;
        NormalIsSame(ms[i].value);
      }
    case _ =>
  }

  lemma {:induction false} SameText(a: Json, b: Json)
    requires Valid(a) && Valid(b) && Same(a, b)
    ensures Canonicalize(a) == Canonicalize(b)
    decreases a, 1, 0
  {
    match a
    case Arr(items) => SameTextItems(a, b, 0);
    case Obj(ms) =>
      SortSorts(ms);
      SortSorts(b.members);
      SameKeys(a, b);
      AscendingUnique(SortedKeys(ms), SortedKeys(b.members));
      SameTextEntries(a, b, SortedKeys(ms));
    case _ =>
  }

  lemma {:induction false} SameTextItems(a: Json, b: Json, i: nat)
    requires Valid(a) && Valid(b) && Same(a, b) && a.Arr? && i <= |a.items|
    ensures CanonicalItems(a, i) == CanonicalItems(b, i)
    decreases a, 0, |a.items| - i
  {
    if i < |a.items| {
      SameText(a.items[i], b.items[i]);
      SameTextItems(a, b, i + 1);
    }
  }

  lemma {:induction false} SameTextEntries(a: Json, b: Json, keys: seq<Text>)
    requires Valid(a) && Valid(b) && Same(a, b) && a.Obj?
    requires forall k :: k in keys ==> HasKey(a.members, k) && HasKey(b.members, k)
    ensures CanonicalEntries(a, keys) == CanonicalEntries(b, keys)
    decreases a, 0, |keys|
  {
    if keys != [] {
      var i := IndexOf(a.members, keys[0]);
      assert a.members[i].key == keys[0];
      SameText(a.members[i].value, b.members[IndexOf(b.members, keys[0])].value);
      SameTextEntries(a, b, keys[1..]);
    }
  }

  /** Reading the canonical text of a value gives the same value, with its keys sorted. */
  lemma ReadsBack(j: Json)
    requires Valid(j)
    ensures ReadValue(Canonicalize(j)) == Got(Normal(j), [])
    ensures Same(j, Normal(j))
  {
    ValueBack(j, []);
    assert Canonicalize(j) + [] == Canonicalize(j);
    NormalIsSame(j);
  }

  /** Two values have the same canonical text exactly when they are equal up to the order of object keys. */
  lemma CanonicalTextIdentifies(a: Json, b: Json)
    requires Valid(a) && Valid(b)
    ensures Canonicalize(a) == Canonicalize(b) <==> Same(a, b)
  {
    ReadsBack(a);
    ReadsBack(b);
    SameIsNormal(a, b);
    if Same(a, b) {
      SameText(a, b);
    }
  }
}
