/** PHP arrays as insertion-ordered association lists, and the few string
    helpers the library relies on (implode, integer interpolation). */
module PhpArrays {

  datatype Option<+T> = None | Some(value: T)

  datatype Result<+R, +E> = Success(value: R) | Failure(error: E)

  /** A PHP array key: an integer or a string. */
  datatype Key = IntKey(i: int) | StrKey(s: string)

  /** PHP arrays never hold two entries with the same key. */
  ghost predicate DistinctKeys<V>(a: seq<(Key, V)>) {
    forall i, j :: 0 <= i < j < |a| ==> a[i].0 != a[j].0
  }

  /** Position of key `k` in `a`, if any (the first one). */
  function IndexOf<V>(a: seq<(Key, V)>, k: Key): (r: Option<nat>)
    ensures r.Some? ==> r.value < |a| && a[r.value].0 == k
    ensures r.Some? ==> forall j :: 0 <= j < r.value ==> a[j].0 != k
    ensures r.None? <==> forall j :: 0 <= j < |a| ==> a[j].0 != k
  {
    if |a| == 0 then None
    else if a[0].0 == k then Some(0)
    else match IndexOf(a[1..], k)
      case None => None
      case Some(i) => Some(i + 1)
  }

  /** `array_key_exists($k, $a)`: the key is present, whatever its value. */
  predicate Has<V>(a: seq<(Key, V)>, k: Key) {
    IndexOf(a, k).Some?
  }

  /** `$a[$k]` for a key that may be missing. */
  function Lookup<V>(a: seq<(Key, V)>, k: Key): Option<V> {
    match IndexOf(a, k)
    case None => None
    case Some(i) => Some(a[i].1)
  }

  /** `$a[$k] = $v`: overwrite in place when the key exists, append otherwise. */
  function Put<V>(a: seq<(Key, V)>, k: Key, v: V): seq<(Key, V)> {
    match IndexOf(a, k)
    case Some(i) => a[i := (k, v)]
    case None => a + [(k, v)]
  }

  /** `unset($a[$k])`. */
  function Remove<V>(a: seq<(Key, V)>, k: Key): (r: seq<(Key, V)>)
    ensures forall e :: e in r ==> e in a && e.0 != k
  {
    if |a| == 0 then []
    else if a[0].0 == k then Remove(a[1..], k)
    else [a[0]] + Remove(a[1..], k)
  }

  /** The array union `$a + $b`: every entry of `a`, then each entry of `b`
      whose key is not there yet. */
  function Union<V>(a: seq<(Key, V)>, b: seq<(Key, V)>): seq<(Key, V)>
    decreases |b|
  {
    if |b| == 0 then a
    else Union(if Has(a, b[0].0) then a else a + [b[0]], b[1..])
  }

  /** The values of an array, in order. */
  function Values<V>(a: seq<(Key, V)>): (r: seq<V>)
    ensures |r| == |a| && forall i :: 0 <= i < |a| ==> r[i] == a[i].1
  {
    if |a| == 0 then [] else Values(a[..|a| - 1]) + [a[|a| - 1].1]
  }

  /** `$r[] = $v` for each value in turn, starting from an empty array. */
  function Reindex<V>(vs: seq<V>): (r: seq<(Key, V)>)
    ensures |r| == |vs|
    ensures forall i :: 0 <= i < |vs| ==> r[i] == (IntKey(i), vs[i])
  {
    seq(|vs|, i requires 0 <= i < |vs| => (IntKey(i), vs[i]))
  }

  /** `array_merge($acc-so-far, $a)` with `next` the next integer key: integer
      keys are renumbered, string keys overwrite. */
  function MergeInto<V>(acc: seq<(Key, V)>, next: nat, a: seq<(Key, V)>): seq<(Key, V)>
    decreases |a|
  {
    if |a| == 0 then acc
    else match a[0].0
      case IntKey(_) => MergeInto(Put(acc, IntKey(next), a[0].1), next + 1, a[1..])
      case StrKey(_) => MergeInto(Put(acc, a[0].0, a[0].1), next, a[1..])
  }

  /** Number of integer keys in `a`. */
  function IntKeyCount<V>(a: seq<(Key, V)>): nat {
    if |a| == 0 then 0 else (if a[0].0.IntKey? then 1 else 0) + IntKeyCount(a[1..])
  }

  /** `array_merge([], ...$arrays)`. */
  function ArrayMerge<V>(arrays: seq<seq<(Key, V)>>): seq<(Key, V)>
    decreases |arrays|
  {
    if |arrays| == 0 then [] else MergeAll([], 0, arrays)
  }

  function MergeAll<V>(acc: seq<(Key, V)>, next: nat, arrays: seq<seq<(Key, V)>>): seq<(Key, V)>
    decreases |arrays|
  {
    if |arrays| == 0 then acc
    else MergeAll(MergeInto(acc, next, arrays[0]), next + IntKeyCount(arrays[0]), arrays[1..])
  }

  predicate AllIntKeys<V>(a: seq<(Key, V)>) {
    forall i :: 0 <= i < |a| ==> a[i].0.IntKey?
  }

  // ---------------------------------------------------------------- lemmas

  /** After `$a[$k] = $v`, `$a[$k]` is `v`. */
  lemma PutLookup<V>(a: seq<(Key, V)>, k: Key, v: V)
    ensures Lookup(Put(a, k, v), k) == Some(v)
  {
    match IndexOf(a, k)
    case Some(i) =>
      assert Put(a, k, v)[i] == (k, v);
      assert IndexOf(Put(a, k, v), k) == Some(i);
    case None =>
      var r := Put(a, k, v);
      assert r[|a|] == (k, v);
      IndexOfAt(r, k, |a|);
  }

  /** `$a[$k] = $v` changes no other key. */
  lemma PutOther<V>(a: seq<(Key, V)>, k: Key, v: V, k': Key)
    requires k' != k
    ensures Lookup(Put(a, k, v), k') == Lookup(a, k')
  {
    var r := Put(a, k, v);
    assert |r| >= |a|;
    assert forall j :: 0 <= j < |a| ==> (r[j].0 == k' <==> a[j].0 == k');
    assert forall j :: |a| <= j < |r| ==> r[j].0 != k';
    match IndexOf(a, k')
    case Some(i) =>
      IndexOfAt(r, k', i);
    case None =>
      IndexOfAbsent(r, k');
  }

  /** Overwriting keeps the key's position and the length; a new key is appended. */
  lemma PutShape<V>(a: seq<(Key, V)>, k: Key, v: V)
    ensures Has(a, k) ==> |Put(a, k, v)| == |a| && forall j :: 0 <= j < |a| ==> Put(a, k, v)[j].0 == a[j].0
    ensures !Has(a, k) ==> Put(a, k, v) == a + [(k, v)]
  {
  }

  /** `Put` keeps the keys distinct. */
  lemma PutDistinct<V>(a: seq<(Key, V)>, k: Key, v: V)
    requires DistinctKeys(a)
    ensures DistinctKeys(Put(a, k, v))
  {
  }

  /** After `unset($a[$k])` the key is gone, and every other key reads as
      before (the order is `RemoveConcat`'s). */
  lemma {:induction false} RemoveLookup<V>(a: seq<(Key, V)>, k: Key, k': Key)
    ensures Lookup(Remove(a, k), k) == None
    ensures k' != k ==> Lookup(Remove(a, k), k') == Lookup(a, k')
  {
    if |a| > 0 {
      RemoveLookup(a[1..], k, k');
      var rest := Remove(a[1..], k);
      if a[0].0 != k {
        ConsLookup(a[0], rest, k);
        ConsLookup(a[0], rest, k');
        ConsLookup(a[0], a[1..], k');
        assert a == [a[0]] + a[1..];
      } else {
        ConsLookup(a[0], a[1..], k');
        assert a == [a[0]] + a[1..];
      }
    }
  }

  /** Looking up in `[e] + r`: `e` first, then `r`. */
  /** `unset` keeps the surviving entries in their order: removing from a
      concatenation removes from each part. */
  lemma {:induction false} RemoveConcat<V>(a: seq<(Key, V)>, b: seq<(Key, V)>, k: Key)
    ensures Remove(a + b, k) == Remove(a, k) + Remove(b, k)
    decreases |a|
  {
    if |a| > 0 {
      assert (a + b)[0] == a[0] && (a + b)[1..] == a[1..] + b;
      RemoveConcat(a[1..], b, k);
    } else {
      assert a + b == b;
    }
  }

  lemma ConsLookup<V>(e: (Key, V), r: seq<(Key, V)>, k: Key)
    ensures Lookup([e] + r, k) == if e.0 == k then Some(e.1) else Lookup(r, k)
  {
    assert ([e] + r)[1..] == r;
  }

  /** `unset` of a missing key is a no-op. */
  lemma {:induction false} RemoveMissing<V>(a: seq<(Key, V)>, k: Key)
    requires !Has(a, k)
    ensures Remove(a, k) == a
  {
    if |a| > 0 {
      assert a[0].0 != k;
      assert !Has(a[1..], k) by {
        forall j | 0 <= j < |a[1..]| ensures a[1..][j].0 != k {
          assert a[1..][j] == a[j + 1];
        }
      }
      RemoveMissing(a[1..], k);
      assert a == [a[0]] + a[1..];
    }
  }

  /** Removing an entry keeps the remaining keys distinct. */
  lemma {:induction false} RemoveDistinct<V>(a: seq<(Key, V)>, k: Key)
    requires DistinctKeys(a)
    ensures DistinctKeys(Remove(a, k))
  {
    if |a| > 0 {
      HeadDistinct(a);
      RemoveDistinct(a[1..], k);
      if a[0].0 != k {
        ConsDistinct(a[0], Remove(a[1..], k));
      }
    }
  }

  /** The tail of a well-formed array is one, and none of its keys is the head's. */
  lemma HeadDistinct<V>(a: seq<(Key, V)>)
    requires DistinctKeys(a) && |a| > 0
    ensures DistinctKeys(a[1..])
    ensures forall e :: e in a[1..] ==> e.0 != a[0].0
  {
    forall i, j | 0 <= i < j < |a[1..]| ensures a[1..][i].0 != a[1..][j].0 {
      assert a[1..][i] == a[i + 1] && a[1..][j] == a[j + 1];
    }
    forall e | e in a[1..] ensures e.0 != a[0].0 {
      var m :| 0 <= m < |a[1..]| && a[1..][m] == e;
      assert a[m + 1] == e;
    }
  }

  /** Prepending an entry whose key is new keeps the keys distinct. */
  lemma ConsDistinct<V>(e: (Key, V), r: seq<(Key, V)>)
    requires DistinctKeys(r)
    requires forall x :: x in r ==> x.0 != e.0
    ensures DistinctKeys([e] + r)
  {
    var s := [e] + r;
    forall i, j | 0 <= i < j < |s| ensures s[i].0 != s[j].0 {
      assert s[j] == r[j - 1];
      if i > 0 {
        assert s[i] == r[i - 1];
      } else {
        assert s[j] in r;
      }
    }
  }

  /** In `$a + $b` the entries of `a` win; `b` only adds keys `a` lacks. */
  lemma {:induction false} UnionLookup<V>(a: seq<(Key, V)>, b: seq<(Key, V)>, k: Key)
    ensures Lookup(Union(a, b), k) == if Has(a, k) then Lookup(a, k) else Lookup(b, k)
    decreases |b|
  {
    if |b| > 0 {
      var a' := if Has(a, b[0].0) then a else a + [b[0]];
      UnionLookup(a', b[1..], k);
      if a' != a {
        SnocLookup(a, b[0], k);
      }
      if b[0].0 != k {
        TailLookup(b, k);
      }
    }
  }

  /** The first position holding key `k` is what `IndexOf` finds. */
  lemma IndexOfAt<V>(a: seq<(Key, V)>, k: Key, i: nat)
    requires i < |a| && a[i].0 == k
    requires forall j :: 0 <= j < i ==> a[j].0 != k
    ensures IndexOf(a, k) == Some(i)
  {
  }

  lemma IndexOfAbsent<V>(a: seq<(Key, V)>, k: Key)
    requires forall j :: 0 <= j < |a| ==> a[j].0 != k
    ensures IndexOf(a, k) == None
  {
  }

  lemma TailLookup<V>(a: seq<(Key, V)>, k: Key)
    requires |a| > 0 && a[0].0 != k
    ensures Lookup(a, k) == Lookup(a[1..], k)
  {
  }

  lemma SnocLookup<V>(a: seq<(Key, V)>, e: (Key, V), k: Key)
    ensures Lookup(a + [e], k) == if Has(a, k) then Lookup(a, k) else if e.0 == k then Some(e.1) else None
    ensures Has(a + [e], k) == (Has(a, k) || e.0 == k)
  {
    var r := a + [e];
    assert forall j :: 0 <= j < |a| ==> r[j] == a[j];
    match IndexOf(a, k)
    case Some(i) =>
      IndexOfAt(r, k, i);
    case None =>
      if e.0 == k {
        IndexOfAt(r, k, |a|);
      } else {
        IndexOfAbsent(r, k);
      }
  }

  /** Keyed 0, 1, 2, ... in order, as after a run of `$r[] = $v`. */
  predicate Renumbered<V>(a: seq<(Key, V)>) {
    forall j :: 0 <= j < |a| ==> a[j].0 == IntKey(j)
  }

  /** Merging one integer-keyed array renumbers its keys from 0 and keeps its
      values in order. */
  lemma {:induction false} MergeIntKeys<V>(acc: seq<(Key, V)>, next: nat, a: seq<(Key, V)>)
    requires AllIntKeys(a)
    requires Renumbered(acc) && next == |acc|
    ensures MergeInto(acc, next, a) == Reindex(Values(acc) + Values(a))
    decreases |a|
  {
    if |a| == 0 {
      assert Values(acc) + Values(a) == Values(acc);
      RenumberedIsReindex(acc);
    } else {
      var acc' := acc + [(IntKey(next), a[0].1)];
      MergeIntHead(acc, a);
      RenumberedSnoc(acc, a[0].1);
      AllIntKeysTail(a);
      ValuesShift(acc, a);
      MergeIntKeys(acc', next + 1, a[1..]);
    }
  }

  /** The first integer-keyed entry is appended under the next key. */
  lemma MergeIntHead<V>(acc: seq<(Key, V)>, a: seq<(Key, V)>)
    requires |a| > 0 && a[0].0.IntKey? && Renumbered(acc)
    ensures MergeInto(acc, |acc|, a) == MergeInto(acc + [(IntKey(|acc|), a[0].1)], |acc| + 1, a[1..])
  {
    AppendNext(acc, a[0].1);
  }

  lemma RenumberedSnoc<V>(acc: seq<(Key, V)>, v: V)
    requires Renumbered(acc)
    ensures Renumbered(acc + [(IntKey(|acc|), v)])
  {
  }

  lemma AllIntKeysTail<V>(a: seq<(Key, V)>)
    requires AllIntKeys(a) && |a| > 0
    ensures AllIntKeys(a[1..])
  {
    forall i | 0 <= i < |a[1..]| ensures a[1..][i].0.IntKey? { assert a[1..][i] == a[i + 1]; }
  }

  lemma ValuesShift<V>(acc: seq<(Key, V)>, a: seq<(Key, V)>)
    requires |a| > 0
    ensures Values(acc + [(IntKey(|acc|), a[0].1)]) + Values(a[1..]) == Values(acc) + Values(a)
  {
    ValuesSnoc(acc, (IntKey(|acc|), a[0].1));
    ValuesCons(a);
  }

  lemma RenumberedIsReindex<V>(a: seq<(Key, V)>)
    requires Renumbered(a)
    ensures a == Reindex(Values(a))
  {
  }

  /** `$acc[] = $v` on an array keyed 0, 1, ...: the next key is new, so
      the entry is appended. */
  lemma AppendNext<V>(acc: seq<(Key, V)>, v: V)
    requires Renumbered(acc)
    ensures Put(acc, IntKey(|acc|), v) == acc + [(IntKey(|acc|), v)]
  {
    IndexOfAbsent(acc, IntKey(|acc|));
  }

  lemma ValuesSnoc<V>(a: seq<(Key, V)>, e: (Key, V))
    ensures Values(a + [e]) == Values(a) + [e.1]
  {
    assert (a + [e])[..|a|] == a;
  }

  lemma ValuesCons<V>(a: seq<(Key, V)>)
    requires |a| > 0
    ensures Values(a) == [a[0].1] + Values(a[1..])
  {
    assert |Values(a)| == |[a[0].1] + Values(a[1..])|;
    forall i | 0 <= i < |a| ensures Values(a)[i] == ([a[0].1] + Values(a[1..]))[i] {
      if i > 0 { assert a[1..][i - 1] == a[i]; }
    }
  }

  /** `$r[] = $v` on a reindexed array appends under the next integer. */
  lemma ReindexSnoc<V>(vs: seq<V>, v: V)
    ensures Reindex(vs + [v]) == Reindex(vs) + [(IntKey(|vs|), v)]
  {
  }

  /** `array_merge([], $a)` of an integer-keyed array is that array's values
      under the keys 0, 1, 2, ... */
  lemma MergeSingle<V>(a: seq<(Key, V)>)
    requires AllIntKeys(a)
    ensures ArrayMerge([a]) == Reindex(Values(a))
  {
    var empty: seq<(Key, V)> := [];
    MergeIntKeys(empty, 0, a);
    assert Values(empty) + Values(a) == Values(a);
    var arrays := [a];
    assert arrays[1..] == [];
    assert MergeAll(empty, 0, arrays) == MergeAll(MergeInto(empty, 0, a), IntKeyCount(a), []);
  }

  /** Every value of `Put(a, k, v)` is `v` or a value of `a`, and the keys
      stay distinct. */
  lemma PutKeeps<V>(p: V -> bool, a: seq<(Key, V)>, k: Key, v: V)
    requires DistinctKeys(a)
    requires forall i :: 0 <= i < |a| ==> p(a[i].1)
    requires p(v)
    ensures forall i :: 0 <= i < |Put(a, k, v)| ==> p(Put(a, k, v)[i].1)
    ensures DistinctKeys(Put(a, k, v))
  {
    PutDistinct(a, k, v);
  }

  lemma {:induction false} MergeIntoKeeps<V>(p: V -> bool, acc: seq<(Key, V)>, next: nat, a: seq<(Key, V)>)
    requires DistinctKeys(acc)
    requires forall i :: 0 <= i < |acc| ==> p(acc[i].1)
    requires forall i :: 0 <= i < |a| ==> p(a[i].1)
    ensures forall i :: 0 <= i < |MergeInto(acc, next, a)| ==> p(MergeInto(acc, next, a)[i].1)
    ensures DistinctKeys(MergeInto(acc, next, a))
    decreases |a|
  {
    if |a| > 0 {
      var k := if a[0].0.IntKey? then IntKey(next) else a[0].0;
      var next' := if a[0].0.IntKey? then next + 1 else next;
      PutKeeps(p, acc, k, a[0].1);
      assert forall i :: 0 <= i < |a[1..]| ==> a[1..][i] == a[i + 1];
      MergeIntoKeeps(p, Put(acc, k, a[0].1), next', a[1..]);
    }
  }

  lemma {:induction false} MergeAllKeeps<V>(p: V -> bool, acc: seq<(Key, V)>, next: nat, arrays: seq<seq<(Key, V)>>)
    requires DistinctKeys(acc)
    requires forall i :: 0 <= i < |acc| ==> p(acc[i].1)
    requires forall k, i :: 0 <= k < |arrays| && 0 <= i < |arrays[k]| ==> p(arrays[k][i].1)
    ensures forall i :: 0 <= i < |MergeAll(acc, next, arrays)| ==> p(MergeAll(acc, next, arrays)[i].1)
    ensures DistinctKeys(MergeAll(acc, next, arrays))
    decreases |arrays|
  {
    if |arrays| > 0 {
      MergeIntoKeeps(p, acc, next, arrays[0]);
      assert forall k :: 0 <= k < |arrays[1..]| ==> arrays[1..][k] == arrays[k + 1];
      MergeAllKeeps(p, MergeInto(acc, next, arrays[0]), next + IntKeyCount(arrays[0]), arrays[1..]);
    }
  }

  /** `array_merge` only draws values from its arguments and yields a proper
      array (distinct keys). */
  lemma ArrayMergeKeeps<V>(p: V -> bool, arrays: seq<seq<(Key, V)>>)
    requires forall k, i :: 0 <= k < |arrays| && 0 <= i < |arrays[k]| ==> p(arrays[k][i].1)
    ensures forall i :: 0 <= i < |ArrayMerge(arrays)| ==> p(ArrayMerge(arrays)[i].1)
    ensures DistinctKeys(ArrayMerge(arrays))
  {
    if |arrays| > 0 {
      MergeAllKeeps(p, [], 0, arrays);
    }
  }

  /** A leading empty array does not change `array_merge`. */
  lemma MergeEmptyFirst<V>(arrays: seq<seq<(Key, V)>>)
    ensures ArrayMerge([[]] + arrays) == ArrayMerge(arrays)
  {
    var empty: seq<(Key, V)> := [];
    var all := [empty] + arrays;
    assert all[1..] == arrays;
    assert MergeInto(empty, 0, empty) == empty;
    assert IntKeyCount(empty) == 0;
    assert ArrayMerge(all) == MergeAll(empty, 0, arrays);
  }

  // ------------------------------------------------------------ strings

  function Join(sep: string, parts: seq<string>): string {
    if |parts| == 0 then ""
    else if |parts| == 1 then parts[0]
    else Join(sep, parts[..|parts| - 1]) + sep + parts[|parts| - 1]
  }

  predicate StartsWith(s: string, prefix: string) {
    |prefix| <= |s| && s[..|prefix|] == prefix
  }

  function DigitChar(d: nat): (c: char)
    requires d < 10
    ensures '0' <= c <= '9' && c as int - '0' as int == d
  {
    "0123456789"[d]
  }

  /** The decimal digits of `n`, most significant first, without leading zeros. */
  function NatToString(n: nat): (r: string)
    ensures |r| > 0
    ensures forall i :: 0 <= i < |r| ==> '0' <= r[i] <= '9'
    ensures |r| > 1 ==> r[0] != '0'
    ensures n < 10 <==> |r| == 1
    decreases n
  {
    if n < 10 then [DigitChar(n)] else NatToString(n / 10) + [DigitChar(n % 10)]
  }

  predicate AllDigits(s: string) {
    forall i :: 0 <= i < |s| ==> '0' <= s[i] <= '9'
  }

  /** The number a string of decimal digits denotes. */
  function DigitsValue(s: string): nat
    requires AllDigits(s)
  {
    if |s| == 0 then 0
    else DigitsValue(s[..|s| - 1]) * 10 + (s[|s| - 1] as int - '0' as int)
  }

  /** The decimal rendering denotes the number it renders. */
  lemma {:induction false} NatToStringValue(n: nat)
    ensures AllDigits(NatToString(n))
    ensures DigitsValue(NatToString(n)) == n
    decreases n
  {
    var r := NatToString(n);
    if n >= 10 {
      NatToStringValue(n / 10);
      assert r[..|r| - 1] == NatToString(n / 10);
    }
  }

  /** PHP's decimal rendering of an integer. */
  function IntToString(n: int): string {
    if n < 0 then "-" + NatToString(-n) else NatToString(n)
  }

  /** The string a key is interpolated as. */
  function KeyString(k: Key): string {
    match k
    case IntKey(i) => IntToString(i)
    case StrKey(s) => s
  }
}
