/**
 Optional values, distinct elements, numbering by key, and the white space of `String.prototype.trim` (sections 12.2 and 12.3 of ECMA-262).
 */
module Basics {

  datatype Option<+T> = None | Some(value: T)

  predicate IsSpace(c: char) {
    c == ' ' || '\t' <= c <= '\r' || c == '\U{a0}' || c == '\U{1680}' || '\U{2000}' <= c <= '\U{200a}'
    || c == '\U{2028}' || c == '\U{2029}' || c == '\U{202f}' || c == '\U{205f}' || c == '\U{3000}' || c == '\U{feff}'
  }

  /** `s.trim() !== ''`. */
  predicate NonBlank(s: string) {
    exists i :: 0 <= i < |s| && !IsSpace(s[i])
  }

  function Trim(s: string): string {
    if s == "" then s
    else if IsSpace(s[0]) then Trim(s[1..])
    else if IsSpace(s[|s| - 1]) then Trim(s[..|s| - 1])
    else s
  }

  lemma {:induction false} TrimOnce(s: string)
    ensures Trim(Trim(s)) == Trim(s)
    ensures Trim(s) != "" <==> NonBlank(s)
  {
    if s == "" {
    } else if IsSpace(s[0]) {
      TrimOnce(s[1..]);
      assert forall i :: 0 < i < |s| ==> s[1..][i - 1] == s[i];
    } else if IsSpace(s[|s| - 1]) {
      TrimOnce(s[..|s| - 1]);
      assert forall i :: 0 <= i < |s| - 1 ==> s[..|s| - 1][i] == s[i];
    }
  }

  // ---- distinct elements ----

  predicate Distinct<T(==)>(s: seq<T>) { forall i, j :: 0 <= i < j < |s| ==> s[i] != s[j] }

  function Elements<T(==)>(s: seq<T>): set<T> { set x | x in s }

  function DistinctCount<T(==)>(s: seq<T>): nat { |Elements(s)| }

  lemma DistinctMore<T>(rest: seq<T>, last: T)
    ensures Distinct(rest + [last]) <==> Distinct(rest) && last !in rest
  {
    var all := rest + [last];
    assert forall i :: 0 <= i < |rest| ==> all[i] == rest[i];
    assert all[|rest|] == last;
  }

  lemma {:induction false} DistinctSize<T>(s: seq<T>)
    ensures DistinctCount(s) <= |s|
    ensures DistinctCount(s) == |s| <==> Distinct(s)
  {
    if s != [] {
      var rest, last := s[..|s| - 1], s[|s| - 1];
      DistinctSize(rest);
      assert rest + [last] == s;
      DistinctMore(rest, last);
      hide Distinct;
      assert Elements(s) == Elements(rest) + {last};
      assert last in rest ==> Elements(rest) + {last} == Elements(rest);
    }
  }

  lemma {:induction false} DistinctFits<T>(s: seq<T>, all: set<T>)
    requires Distinct(s) && forall i :: 0 <= i < |s| ==> s[i] in all
    ensures |s| <= |all|
  {
    if |s| > 0 {
      var last := s[|s| - 1];
      DistinctFits(s[..|s| - 1], all - {last});
    }
  }

  // ---- numbering by key ----

  function Occurrences(keys: seq<nat>, k: nat): nat {
    if keys == [] then 0 else Occurrences(keys[..|keys| - 1], k) + if keys[|keys| - 1] == k then 1 else 0
  }

  /** Each row is numbered one more than the rows before it under its key. */
  ghost predicate Numbers(keys: seq<nat>, numbers: seq<int>) {
    |numbers| == |keys| && forall i :: 0 <= i < |keys| ==> numbers[i] == Occurrences(keys[..i], keys[i]) + 1
  }

  ghost predicate Used(keys: seq<nat>, numbers: seq<int>, k: nat, n: int) {
    exists i :: 0 <= i < |keys| && i < |numbers| && keys[i] == k && numbers[i] == n
  }

  lemma {:induction false} NumberIsUsed(keys: seq<nat>, numbers: seq<int>, k: nat, n: int)
    requires Numbers(keys, numbers) && 1 <= n <= Occurrences(keys, k)
    ensures Used(keys, numbers, k, n)
  {
    var last := |keys| - 1;
    if keys[last] == k && n == Occurrences(keys, k) {
      assert keys[last] == k && numbers[last] == n;
    } else {
      assert forall i :: 0 <= i <= last ==> keys[..last][..i] == keys[..i];
      NumberIsUsed(keys[..last], numbers[..last], k, n);
      var i :| 0 <= i < last && keys[..last][i] == k && numbers[..last][i] == n;
      assert keys[i] == k && numbers[i] == n;
    }
  }

  lemma {:induction false} OccurrencesGrow(keys: seq<nat>, k: nat, i: nat, j: nat)
    requires i <= j <= |keys|
    ensures Occurrences(keys[..i], k) <= Occurrences(keys[..j], k)
    decreases j - i
  {
    if i < j {
      OccurrencesGrow(keys, k, i, j - 1);
      assert keys[..j][..j - 1] == keys[..j - 1];
    }
  }

  lemma NumberAtMost(keys: seq<nat>, numbers: seq<int>, i: nat, n: nat)
    requires Numbers(keys, numbers) && i < n <= |keys|
    ensures 1 <= numbers[i] <= Occurrences(keys[..n], keys[i])
  {
    assert keys[..i + 1][..i] == keys[..i];
    OccurrencesGrow(keys, keys[i], i + 1, n);
  }

  /** The rows under a key carry the numbers 1 to their count, each once, in order. */
  lemma NumberedInOrder(keys: seq<nat>, numbers: seq<int>, k: nat)
    requires Numbers(keys, numbers)
    ensures forall n :: 1 <= n <= Occurrences(keys, k) ==> Used(keys, numbers, k, n)
    ensures forall i :: 0 <= i < |keys| && keys[i] == k ==> 1 <= numbers[i] <= Occurrences(keys, k)
    ensures forall i, j :: 0 <= i < j < |keys| && keys[i] == k && keys[j] == k ==> numbers[i] < numbers[j]
  {
    assert keys[..|keys|] == keys;
    hide Occurrences, Used;
    forall n | 1 <= n <= Occurrences(keys, k) ensures Used(keys, numbers, k, n) {
      NumberIsUsed(keys, numbers, k, n);
    }
    forall i | 0 <= i < |keys| && keys[i] == k ensures 1 <= numbers[i] <= Occurrences(keys, k) {
      NumberAtMost(keys, numbers, i, |keys|);
    }
    forall i, j | 0 <= i < j < |keys| && keys[i] == k && keys[j] == k ensures numbers[i] < numbers[j] {
      NumberAtMost(keys, numbers, i, j);
    }
  }
}
