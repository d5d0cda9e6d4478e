/**
 The canonical text of a JSON value (src/content-import/import-contract.ts:107-113): object keys sorted, no white space,
 strings as `JSON.stringify` quotes them (section 25.5.2.2 of ECMA-262). Text is a sequence of UTF-16 code units, so a
 string may hold unpaired surrogates. A number is represented by its text; section 6 of RFC 8259 gives the tokens.
 */
module CanonicalJson {

  type Unit = u: int | 0 <= u < 0x10000

  type Text = seq<Unit>

  datatype Json =
    | Null
    | Bool(value: bool)
    | Num(token: Text)
    | Str(text: Text)
    | Arr(items: seq<Json>)
    | Obj(members: seq<Member>)

  datatype Member = Member(key: Text, value: Json)

  const QUOTE: Unit := '"' as int
  const BACKSLASH: Unit := '\\' as int
  const COMMA: Unit := ',' as int
  const COLON: Unit := ':' as int
  const OPEN_BRACKET: Unit := '[' as int
  const CLOSE_BRACKET: Unit := ']' as int
  const OPEN_BRACE: Unit := '{' as int
  const CLOSE_BRACE: Unit := '}' as int
  const NULL_TEXT: Text := ['n' as int, 'u' as int, 'l' as int, 'l' as int]
  const TRUE_TEXT: Text := ['t' as int, 'r' as int, 'u' as int, 'e' as int]
  const FALSE_TEXT: Text := ['f' as int, 'a' as int, 'l' as int, 's' as int, 'e' as int]

  // ---- number tokens, section 6 of RFC 8259 ----

  predicate IsDigit(u: Unit) { '0' as int <= u <= '9' as int }

  predicate Digits(t: Text) { |t| > 0 && forall i :: 0 <= i < |t| ==> IsDigit(t[i]) }

  predicate IntPart(t: Text) { Digits(t) && (t[0] == '0' as int ==> |t| == 1) }

  predicate FracPart(t: Text) { t == [] || (t[0] == '.' as int && Digits(t[1..])) }

  predicate ExpPart(t: Text) {
    t == [] || ((t[0] == 'e' as int || t[0] == 'E' as int)
                && (Digits(t[1..]) || (|t| > 1 && (t[1] == '+' as int || t[1] == '-' as int) && Digits(t[2..]))))
  }

  predicate NumberParts(t: Text, sign: Text, whole: Text, frac: Text, exp: Text) {
    && t == sign + whole + frac + exp
    && (sign == [] || sign == ['-' as int]) && IntPart(whole) && FracPart(frac) && ExpPart(exp)
  }

  ghost predicate IsNumber(t: Text) {
    exists sign, whole, frac, exp :: NumberParts(t, sign, whole, frac, exp)
  }

  predicate NumberUnit(u: Unit) {
    IsDigit(u) || u == '+' as int || u == '-' as int || u == '.' as int || u == 'e' as int || u == 'E' as int
  }

  lemma DigitsOnly(t: Text, i: nat)
    requires FracPart(t) || ExpPart(t)
    requires i < |t|
    ensures NumberUnit(t[i])
  {
    if i >= 1 {
      assert t[i] == t[1..][i - 1];
      if i >= 2 {
        assert t[i] == t[2..][i - 2];
      }
    }
  }

  lemma NumberUnits(t: Text)
    requires IsNumber(t)
    ensures |t| > 0 && (IsDigit(t[0]) || t[0] == '-' as int)
    ensures forall i :: 0 <= i < |t| ==> NumberUnit(t[i])
  {
    var sign, whole, frac, exp :| NumberParts(t, sign, whole, frac, exp);
    var a, b := |sign| + |whole|, |sign| + |whole| + |frac|;
    forall i | 0 <= i < |t| ensures NumberUnit(t[i]) {
      if i >= b {
        DigitsOnly(exp, i - b);
      } else if i >= a {
        DigitsOnly(frac, i - a);
      } else if i >= |sign| {
        assert t[i] == whole[i - |sign|];
      }
    }
    assert t[|sign|] == whole[0];
  }

  // ---- values ----

  predicate DistinctKeys(ms: seq<Member>) { forall i, j :: 0 <= i < j < |ms| ==> ms[i].key != ms[j].key }

  predicate HasKey(ms: seq<Member>, k: Text) { exists i :: 0 <= i < |ms| && ms[i].key == k }

  function IndexOf(ms: seq<Member>, k: Text): (i: nat)
    requires HasKey(ms, k)
    ensures i < |ms| && ms[i].key == k
  {
    if ms[0].key == k then 0
    else
      assert HasKey(ms[1..], k) by {
        var i :| 0 <= i < |ms| && ms[i].key == k;
        assert ms[1..][i - 1].key == k;
      }
      1 + IndexOf(ms[1..], k)
  }

  /** Number tokens are well formed and the keys of an object are distinct. */
  ghost predicate Valid(j: Json) {
    match j
    case Num(token) => IsNumber(token)
    case Arr(items) => forall i :: 0 <= i < |items| ==> Valid(items[i])
    case Obj(ms) => DistinctKeys(ms) && forall i :: 0 <= i < |ms| ==> Valid(ms[i].value)
    case _ => true
  }

  /** Equal up to the order of object keys. */
  ghost predicate Same(a: Json, b: Json) {
    match a
    case Arr(items) => b.Arr? && |items| == |b.items| && forall i :: 0 <= i < |items| ==> Same(items[i], b.items[i])
    case Obj(ms) =>
      && b.Obj? && |ms| == |b.members|
      && forall i :: 0 <= i < |ms| ==>
           HasKey(b.members, ms[i].key) && Same(ms[i].value, b.members[IndexOf(b.members, ms[i].key)].value)
    case _ => a == b
  }

  // ---- key order ----

  /** The default order of `sort`: lexicographic by code unit. */
  predicate Before(a: Text, b: Text) {
    if a == [] then b != []
    else if b == [] then false
    else if a[0] != b[0] then a[0] < b[0]
    else Before(a[1..], b[1..])
  }

  lemma {:induction false} BeforeIsTotal(a: Text, b: Text)
    ensures Before(a, b) || Before(b, a) || a == b
    ensures !(Before(a, b) && Before(b, a)) && !Before(a, a)
  {
    if a != [] && b != [] && a[0] == b[0] {
      BeforeIsTotal(a[1..], b[1..]);
      assert a == [a[0]] + a[1..] && b == [b[0]] + b[1..];
    }
    if a != [] {
      BeforeIsTotal(a[1..], a[1..]);
    }
  }

  /** `a` differs from `b` first at unit `i`, by ending there or by the smaller unit. */
  predicate DiffersAt(a: Text, b: Text, i: nat) {
    i <= |a| && i < |b| && a[..i] == b[..i] && (i == |a| || a[i] < b[i])
  }

  lemma {:induction false} BeforeIsLexicographic(a: Text, b: Text)
    ensures Before(a, b) <==> exists i: nat :: DiffersAt(a, b, i)
  {
    if a == [] || b == [] || a[0] != b[0] {
      assert b != [] && (a == [] || a[0] < b[0]) ==> DiffersAt(a, b, 0);
    } else {
      BeforeIsLexicographic(a[1..], b[1..]);
      if Before(a, b) {
        var i: nat :| DiffersAt(a[1..], b[1..], i);
        assert a[..i + 1] == [a[0]] + a[1..][..i] && b[..i + 1] == [b[0]] + b[1..][..i];
        assert DiffersAt(a, b, i + 1);
      }
      if exists i: nat :: DiffersAt(a, b, i) {
        var i: nat :| DiffersAt(a, b, i);
        assert a[1..][..i - 1] == a[..i][1..] && b[1..][..i - 1] == b[..i][1..];
        assert DiffersAt(a[1..], b[1..], i - 1);
      }
    }
  }

  lemma {:induction false} BeforeTrans(a: Text, b: Text, c: Text)
    requires Before(a, b) && Before(b, c)
    ensures Before(a, c)
  {
    if a != [] && b != [] && c != [] && a[0] == b[0] && b[0] == c[0] {
      BeforeTrans(a[1..], b[1..], c[1..]);
    }
  }

  function Insert(k: Text, keys: seq<Text>): seq<Text> {
    if keys == [] || Before(k, keys[0]) then [k] + keys else [keys[0]] + Insert(k, keys[1..])
  }

  function SortedKeys(ms: seq<Member>): seq<Text> {
    if ms == [] then [] else Insert(ms[0].key, SortedKeys(ms[1..]))
  }

  ghost predicate Ascending(keys: seq<Text>) { forall i, j :: 0 <= i < j < |keys| ==> Before(keys[i], keys[j]) }

  lemma {:induction false} InsertAdds(k: Text, keys: seq<Text>)
    ensures |Insert(k, keys)| == |keys| + 1
    ensures forall x :: x in Insert(k, keys) <==> x == k || x in keys
  {
    if keys != [] && !Before(k, keys[0]) {
      InsertAdds(k, keys[1..]);
      assert keys == [keys[0]] + keys[1..];
    }
  }

  lemma {:induction false} InsertAscends(k: Text, keys: seq<Text>)
    requires Ascending(keys) && k !in keys
    ensures Ascending(Insert(k, keys))
  {
    if keys == [] {
    } else if Before(k, keys[0]) {
      forall i | 0 < i < |keys| ensures Before(k, keys[i]) {
        BeforeTrans(k, keys[0], keys[i]);
      }
    } else {
      var rest := Insert(k, keys[1..]);
      InsertAscends(k, keys[1..]);
      InsertAdds(k, keys[1..]);
      BeforeIsTotal(k, keys[0]);
      forall i | 0 <= i < |rest| ensures Before(keys[0], rest[i]) {
        assert rest[i] in rest;
        if rest[i] != k {
          var n :| 0 <= n < |keys| - 1 && keys[1..][n] == rest[i];
          assert Before(keys[0], keys[n + 1]);
        }
      }
    }
  }

  /** Sorting distinct keys lists each once, in ascending order. */
  lemma {:induction false} SortSorts(ms: seq<Member>)
    requires DistinctKeys(ms)
    ensures Ascending(SortedKeys(ms)) && |SortedKeys(ms)| == |ms|
    ensures forall k :: k in SortedKeys(ms) <==> HasKey(ms, k)
  {
    if ms != [] {
      var rest := ms[1..];
      SortSorts(rest);
      InsertAdds(ms[0].key, SortedKeys(rest));
      assert forall i :: 0 <= i < |rest| ==> rest[i] == ms[i + 1];
      InsertAscends(ms[0].key, SortedKeys(rest));
      forall k ensures HasKey(ms, k) <==> k == ms[0].key || HasKey(rest, k) {
        if HasKey(ms, k) && k != ms[0].key {
          var i :| 0 <= i < |ms| && ms[i].key == k;
          assert rest[i - 1].key == k;
        }
        if HasKey(rest, k) {
          var i :| 0 <= i < |rest| && rest[i].key == k;
          assert ms[i + 1].key == k;
        }
      }
    }
  }

  lemma FirstIsIn(a: seq<Text>)
    requires |a| > 0
    ensures exists k :: k in a
  {
    assert a[0] in a;
  }

  /** An ascending list is determined by its elements. */
  lemma {:induction false} AscendingUnique(a: seq<Text>, b: seq<Text>)
    requires Ascending(a) && Ascending(b) && forall k :: k in a <==> k in b
    ensures a == b
  {
    if a == [] {
      if |b| > 0 {
        FirstIsIn(b);
      }
    } else {
      assert a[0] in a;
      var i :| 0 <= i < |b| && b[i] == a[0];
      assert b[0] in b;
      var j :| 0 <= j < |a| && a[j] == b[0];
      BeforeIsTotal(a[0], b[0]);
      forall k ensures k in a[1..] <==> k in b[1..] {
        TailOf(a, k);
        TailOf(b, k);
      }
      AscendingUnique(a[1..], b[1..]);
      assert a == [a[0]] + a[1..] && b == [b[0]] + b[1..];
    }
  }

  lemma TailOf(a: seq<Text>, k: Text)
    requires Ascending(a) && |a| > 0
    ensures k in a[1..] <==> k in a && k != a[0]
  {
    BeforeIsTotal(a[0], a[0]);
    assert a == [a[0]] + a[1..];
  }

  // ---- the canonical text ----

  predicate Lead(u: Unit) { 0xD800 <= u < 0xDC00 }

  predicate Trail(u: Unit) { 0xDC00 <= u < 0xE000 }

  function HexDigit(d: int): Unit
    requires 0 <= d < 16
  {
    if d < 10 then '0' as int + d else 'a' as int + d - 10
  }

  /** The four hexadecimal digits of a unit, most significant first. */
  function HexDigits(u: Unit): Text {
    [HexDigit(u / 16 / 16 / 16), HexDigit(u / 16 / 16 % 16), HexDigit(u / 16 % 16), HexDigit(u % 16)]
  }

  function EscapeUnit(u: Unit): Text {
    if u == QUOTE || u == BACKSLASH then [BACKSLASH, u]
    else if u == 8 then [BACKSLASH, 'b' as int]
    else if u == 9 then [BACKSLASH, 't' as int]
    else if u == 10 then [BACKSLASH, 'n' as int]
    else if u == 12 then [BACKSLASH, 'f' as int]
    else if u == 13 then [BACKSLASH, 'r' as int]
    else if u < 32 || Lead(u) || Trail(u) then
      [BACKSLASH, 'u' as int] + HexDigits(u)
    else [u]
  }

  /** A surrogate pair is kept, an unpaired surrogate is escaped. */
  function Escaped(s: Text): Text {
    if s == [] then []
    else if |s| > 1 && Lead(s[0]) && Trail(s[1]) then [s[0], s[1]] + Escaped(s[2..])
    else EscapeUnit(s[0]) + Escaped(s[1..])
  }

  /** A unit that needs no escape. */
  predicate Plain(u: Unit) {
    u >= 0x20 && u != '"' as int && u != '\\' as int && !(0xD800 <= u <= 0xDFFF)
  }

  /** Text without anything to escape is kept as it is. */
  lemma {:induction false} PlainIsKept(s: Text)
    requires forall i :: 0 <= i < |s| ==> Plain(s[i])
    ensures Escaped(s) == s
  {
    if s != [] {
      PlainIsKept(s[1..]);
    }
  }

  const HEX: string := "0123456789abcdef"

  /** A control character without a short escape is four digits of lower case after `u`, as is an unpaired surrogate. */
  lemma EscapesAre(u: Unit)
    requires (u < 0x20 && u !in {8, 9, 10, 12, 13}) || 0xD800 <= u <= 0xDFFF
    ensures Escaped([u]) == ['\\' as int, 'u' as int, HEX[u / 0x1000] as int, HEX[u / 0x100 % 16] as int,
                             HEX[u / 0x10 % 16] as int, HEX[u % 16] as int]
  {
    HexDigitIs(u / 0x1000);
    HexDigitIs(u / 0x100 % 16);
    HexDigitIs(u / 0x10 % 16);
    HexDigitIs(u % 16);
    assert u / 16 / 16 == u / 0x100 && u / 16 / 16 / 16 == u / 0x1000;
  }

  lemma HexDigitIs(d: int)
    requires 0 <= d < 16
    ensures HexDigit(d) == HEX[d] as int
  {
  }

  function Quoted(s: Text): Text { [QUOTE] + Escaped(s) + [QUOTE] }

  function Canonicalize(j: Json): Text
    decreases j, 1, 0
  {
    match j
    case Null => NULL_TEXT
    case Bool(b) => if b then TRUE_TEXT else FALSE_TEXT
    case Num(token) => token
    case Str(s) => Quoted(s)
    case Arr(items) => [OPEN_BRACKET] + CanonicalItems(j, 0) + [CLOSE_BRACKET]
    case Obj(ms) =>
      SortedKeysOf(ms);
      [OPEN_BRACE] + CanonicalEntries(j, SortedKeys(ms)) + [CLOSE_BRACE]
  }

  function CanonicalItems(j: Json, i: nat): Text
    requires j.Arr? && i <= |j.items|
    decreases j, 0, |j.items| - i
  {
    if i == |j.items| then []
    else Canonicalize(j.items[i]) + (if i + 1 < |j.items| then [COMMA] else []) + CanonicalItems(j, i + 1)
  }

  function CanonicalEntries(j: Json, keys: seq<Text>): Text
    requires j.Obj? && forall k :: k in keys ==> HasKey(j.members, k)
    decreases j, 0, |keys|
  {
    if keys == [] then []
    else
      Quoted(keys[0]) + [COLON] + Canonicalize(j.members[IndexOf(j.members, keys[0])].value)
      + (if |keys| > 1 then [COMMA] else []) + CanonicalEntries(j, keys[1..])
  }

  lemma {:induction false} SortedKeysOf(ms: seq<Member>)
    ensures forall k :: k in SortedKeys(ms) ==> HasKey(ms, k)
  {
    if ms != [] {
      SortedKeysOf(ms[1..]);
      InsertAdds(ms[0].key, SortedKeys(ms[1..]));
      forall k | HasKey(ms[1..], k) ensures HasKey(ms, k) {
        var i :| 0 <= i < |ms| - 1 && ms[1..][i].key == k;
        assert ms[i + 1].key == k;
      }
      assert ms[0].key == ms[0].key;
    }
  }
}
