/**
 * The list of live keys that the Memcached adapter keeps under the key
 * "keys" of its "ConnectionInfo" namespace, because Memcached cannot
 * enumerate the keys it stores. These are the list operations the adapter
 * applies to it: Array#reject (on delete) and `[key].append(*keys).uniq`
 * (on create).
 */
module KeyIndex {
  import opened Wrappers

  predicate NoDuplicates(s: seq<string>) {
    forall i, j :: 0 <= i < j < |s| ==> s[i] != s[j]
  }

  /** The list, or nothing when the index record is absent (`*nil` splats to no arguments). */
  function Entries(index: Option<seq<string>>): seq<string> {
    if index.Some? then index.value else []
  }

  /** `s.reject { |k| k == x }`: every occurrence of x dropped, the rest in order. */
  function Without(s: seq<string>, x: string): (r: seq<string>)
    ensures |r| <= |s|
    ensures forall y :: y in r <==> y in s && y != x
    ensures NoDuplicates(s) ==> NoDuplicates(r)
  {
    if s == [] then []
    else if s[0] == x then Without(s[1..], x)
    else
      assert NoDuplicates(s) ==> s[0] !in s[1..] && NoDuplicates(s[1..]);
      [s[0]] + Without(s[1..], x)
  }

  /** Array#uniq: the first occurrence of every element, in order. */
  function Uniq(s: seq<string>): (r: seq<string>)
    ensures NoDuplicates(r)
    ensures forall y :: y in r <==> y in s
    decreases |s|
  {
    if s == [] then []
    else
      var rest := Uniq(Without(s[1..], s[0]));
      ConsNoDuplicates(s[0], rest);
      [s[0]] + rest
  }

  lemma ConsNoDuplicates(x: string, t: seq<string>)
    requires x !in t && NoDuplicates(t)
    ensures NoDuplicates([x] + t)
  {
    forall i, j | 0 <= i < j < |[x] + t| ensures ([x] + t)[i] != ([x] + t)[j] {
      if i > 0 { assert ([x] + t)[i] == t[i - 1]; }
      assert ([x] + t)[j] == t[j - 1];
    }
  }

  lemma {:induction false} WithoutAbsent(s: seq<string>, x: string)
    requires x !in s
    ensures Without(s, x) == s
  {
    if s != [] {
      WithoutAbsent(s[1..], x);
    }
  }

  /** Array#uniq leaves a list without duplicates unchanged. */
  lemma {:induction false} UniqOfNoDuplicates(s: seq<string>)
    requires NoDuplicates(s)
    ensures Uniq(s) == s
  {
    if s != [] {
      assert s[0] !in s[1..];
      WithoutAbsent(s[1..], s[0]);
      assert NoDuplicates(s[1..]);
      UniqOfNoDuplicates(s[1..]);
    }
  }

  /** Array#uniq is idempotent. */
  lemma UniqIdempotent(s: seq<string>)
    ensures Uniq(Uniq(s)) == Uniq(s)
  {
    UniqOfNoDuplicates(Uniq(s));
  }

  /**
   * The list written back by `update_used_keys(key)`: `[key].append(*index).uniq`.
   * The key comes first and only once; the other keys are the old entries with
   * the key and repeated keys dropped, first occurrences kept in their order.
   */
  function Promote(index: Option<seq<string>>, key: string): (r: seq<string>)
    ensures |r| > 0 && r[0] == key && key !in r[1..]
    ensures NoDuplicates(r)
    ensures forall y :: y in r <==> y == key || y in Entries(index)
    ensures r[1..] == Uniq(Without(Entries(index), key))
  {
    var r := Uniq([key] + Entries(index));
    assert ([key] + Entries(index))[1..] == Entries(index);
    r
  }

  /** When the index already has no duplicates, promotion only moves the key to the front. */
  lemma PromoteMovesToFront(index: seq<string>, key: string)
    requires NoDuplicates(index)
    ensures Promote(Some(index), key) == [key] + Without(index, key)
  {
    UniqOfNoDuplicates(Without(index, key));
  }

  /** Promoting the key that is already at the front changes nothing. */
  lemma PromoteTwice(index: Option<seq<string>>, key: string)
    ensures Promote(Some(Promote(index, key)), key) == Promote(index, key)
  {
    var p := Promote(index, key);
    PromoteMovesToFront(p, key);
    assert p == [key] + p[1..];
    WithoutAbsent(p[1..], key);
  }
}
